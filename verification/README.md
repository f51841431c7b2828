# Zann: a verified model of its replica and the structures around it

Zann is an offline-first password manager. A client keeps a local cache of every vault, queues
local changes, pushes them to a server and pulls the server's change log page by page. This
project models the parts of Zann that are hard to get right and proves what they guarantee, on
every input and over every run. `dafny verify dfyconfig.toml` checks all of it.

| part | files |
|---|---|
| the client replica: pull, push, conflicts, cursors, the master-key gate | `ReplicaModel`, `PullJoin`, `ServerLog`, `PullRuns`, `PullResume`, `PullConverge`, `ConflictStep`, `PushQueue`, `PushCursor`, `OfflineModel`, `OfflineRuns`, `OfflineWindow`, `OfflineSkips`, `OfflineEdits`, `CacheRuns`, `PathIndex`, `ConflictWrites`, `Gate`, `Replica` |
| the folder tree, twice, and the folder filter | `Paths`, `FolderCounts`, `FolderTree`, `FolderFilter`, `FolderTreeWeb` |
| keyset paging | `Paging` |
| history merge and prune | `History` |
| base32 with a wrapping accumulator | `Base32` |
| blob format and two-layer envelope | `BlobCodec`, `Envelope` |
| the desktop sync scheduler | `SchedulerModel`, `SchedulerRuns`, `SchedulerSteps`, `SchedulerLife`, `SyncScheduler` |
| login and storage merging | `Login` |
| optimistic row versions | `RowVersion` |

`Base` and `Arith` hold shared types and arithmetic. Code that updates fields is a class
(`Replica.ClientDb`, `FolderTree.Builder`, `Paging.ItemList`, `History.HistoryRepo`,
`SyncScheduler.Scheduler`, `Login.Client`, `RowVersion.ItemRepo`); each of its methods is proved
equal to a function on values, and the theorems are about those functions and their runs. What a step
writes is also stated field by field, without the functions that compute it, so that no branch or
value rests on its own definition.

## Hypotheses

- Local database writes succeed; the errors the sync code drops are not modelled, except the
  refusals of the item cache's own constraints, which `PathIndex` treats for pulls and
  `ConflictWrites` for conflict rows.
- A commit appends to the server log and updates its item in one step, and commits become visible
  in the order of their numbers; numbers may have gaps. A push request is not one step: its commit,
  the reading of its cursor and the pull that follows are separate, with other commits in between.
- One page of the server, and one page of the local item table, is one snapshot.
- Hashes and the AEAD are arbitrary functions; their laws are stated where they are used
  (`Envelope.Correct`, which is met by interfaces that always seal; `Login.Reads`). No law about
  forgeries is assumed: the results say which forgery a failure would take.
- Clocks, random identifiers, keys and nonces, parsed timestamps and parsed cursors are inputs.
- Storage and item identifiers are compared as numbers; timer identifiers are positive.

## Where the code falls short of what it is for

Each of these is a theorem that says exactly when the code meets the property, or that it never
does, with an example or a family of inputs where it does not.

- A push answers with the newest number of the vault's log and the client continues from there, so
  other devices' changes between the old cursor and that number are never pulled, and neither are
  those committed between the push and the reading of that number
  (`PushCursor.AcceptedSyncCatchesUp`, `PushCursor.AcceptedSyncCatchesUpAtOnce`,
  `PushCursor.RefusedSyncCatchesUp`, `OfflineSkips.PushLosesForGood`, `OfflineSkips.LostUpdateExample`).
  The change that caused a conflict is among them, and so is any change that a locally raised version
  keeps out (`PushCursor.ConflictCauseIsNotFetched`, `OfflineWindow.OnlyPassedIsMissed`).
- A pushed item that is changed again before the reply comes is shown as synced with content the
  server does not have (`OfflineWindow.ReplyMatchesIff`, `OfflineWindow.EditInFlightIsMisreported`).
- A refused edit whose conflict row the cache does not take is lost, for its queue row goes all the
  same (`ConflictWrites.RefusedEditIsKeptIff`, `ConflictWrites.WrittenIff`); a refused deletion is
  forgotten while the row stays deleted here (`OfflineWindow.RefusedDeletionIsForgotten`).
- The server's pull replies carry no deletion time, so a remote deletion becomes a live row with an
  empty payload; an item created later under the freed path is then refused by the unique index
  and lost (`CacheRuns.RemoteDeletionStaysLive`, `PathIndex.RecreatedItemIsRefused`,
  `PathIndex.IndexedAgreesIff`).
- With two queued changes of one item, an acknowledgement removes the newer one only
  (`PushQueue.OlderChangeStays`).
- Rows are looked up by storage and item, not by vault, so a reply about one vault reaches another
  vault's rows exactly when it says something newer about them (`Gate.SyncKeepsOthersIff`,
  `Gate.ForeignChangeTouches`).
- The item list asks for one row more than it shows and continues after that row, so every
  (limit + 1)-st row is never shown (`Paging.BrowseIsExact`).
- A merge does not recognise versions that are already confirmed; merging an answer twice stores
  them twice and evicts older versions (`History.MergeKeepsVersionsUnique`,
  `History.SecondMergeEvicts`).
- Stopping automatic sync while a timer's own sync is under way does not stop it
  (`SchedulerLife.StopIsFinal`); a session handler that throws leaves storages shown as syncing and
  can end automatic sync (`SchedulerLife.ThrowIsTruthful`, `SchedulerLife.StuckSyncing`,
  `SchedulerLife.StepLife`).
- A folder that bears the name of the "no folder" marker cannot be selected
  (`FolderFilter.SelectableIff`, `FolderFilter.MarkerNamedFolder`); the web tree drops a leading slash and then misses folders
  (`FolderTreeWeb.FoldersRightIff`, `FolderTreeWeb.FolderTreeData`).
- A context that spells a merged storage's id in another way keeps referring to it
  (`Login.DanglingIffMisspelt`).
- The push handler writes item rows without comparing row versions and can overwrite an update
  (`RowVersion.NoLostUpdateIff`, `RowVersion.PushLosesUpdate`).

## Model

| member | source | states |
|---|---|---|
| `PullJoin.PullIsJoin` | crates/zann-client/src/sync_helpers.rs:279-386 | after any well-formed delivery every item holds row and history of the one change with the highest number above its starting version; items no change beats are untouched |
| `PullJoin.DeliveryIsIrrelevant` | crates/zann-client/src/sync_helpers.rs:279-386 | deliveries of the same set of changes leave equal caches, whatever their order, repetition and page split |
| `PullJoin.PullsReachBest` | crates/zann-client/src/sync_helpers.rs:279-386 | item by item, folding the changes reaches the start overlaid with the best change |
| `PullJoin.Best` | crates/zann-client/src/sync_helpers.rs:308-320 | the scan finds the newest change that beats the start row, or none exists |
| `PullJoin.BestBySet` | crates/zann-client/src/sync_helpers.rs:279-386 | which change wins depends only on the set of changes |
| `PullJoin.DeliveredRowIs` | crates/zann-client/src/sync_helpers.rs:279-386 | field by field: after any delivery the row of an item shows path, name, type, payload, checksum (that of the change, else the hash of a payload that is not empty), number, times and status of the item's highest change, keeps vault and cache-key fingerprint, and takes its history, if there was no row or an older one of the same storage; otherwise row and history stay |
| `ServerLog.SinceIsSuffix` | crates/zann-db/src/repo/changes.rs:49-77 | the entries past a number are the suffix of the ascending log that starts right after it |
| `ServerLog.LastSeqIsLast` | crates/zann-db/src/repo/changes.rs:80-93 | the last number is that of the last entry and bounds all, 0 for an empty log |
| `ServerLog.PullPage` | crates/zann-server/src/domains/sync/service.rs:111-240 | a page respects the clamped limit, `has_more` says whether entries remain, an empty page keeps the cursor |
| `ServerLog.PageIs` | crates/zann-server/src/domains/sync/service.rs:111-240 | a page is the entries right after the cursor, at most 1 to 500 of them, each with the item's current fields, without a payload for a deletion and never with a deletion time; the next cursor is the number of the last one |
| `ServerLog.PagesChain` | crates/zann-server/src/domains/sync/service.rs:127-231 | a page and what lies past its cursor make up what lay past the old cursor; without `has_more` nothing is left |
| `ServerLog.CommitAppends` | crates/zann-db/src/repo/changes.rs:24-47 | a commit keeps the log valid, becomes the latest entry of its item and of no other |
| `PullRuns.StepKeepsInv` | crates/zann-client/src/sync.rs:373-466 | every step (commit, page request, applied change, page end, failed request, crash) keeps: the cursor passes only what the replica has or is known to owe, and no row without a local change is ahead of the server; rows of other vaults and storages and locally changed rows may be anything |
| `PullRuns.CursorSteps` | crates/zann-client/src/sync.rs:373-466 | the cursor is read when a pull begins, moved on by the end of a page, saved after the last page or when a request fails, and lost in a crash; only an applied change touches a row |
| `PullRuns.RunKeepsInv` | crates/zann-client/src/sync.rs:373-466 | the same over every interleaving of such steps |
| `PullRuns.RunsAgreeUpToCursor` | crates/zann-client/src/sync.rs:373-466 | in every run, an item whose latest change lies at or below the saved cursor is on the replica, and if its row carries no local change it has exactly the server's content, history and number; no such row is ahead |
| `PullRuns.FinishedPullIsComplete` | crates/zann-client/src/sync.rs:373-466 | when the saved cursor is the end of the log, every item of the log is there, and every row without a local change carries the server's content |
| `PullRuns.FreshClientIsInv` | crates/zann-client/src/sync.rs:269-280 | a client that never synced this vault satisfies the invariant, whatever rows of other storages and vaults and local changes it holds |
| `PullRuns.PageIsHonest` | crates/zann-server/src/domains/sync/service.rs:166-229 | every change of a page answers a log entry with the item's current content |
| `PullRuns.PageIsGapless` | crates/zann-server/src/domains/sync/service.rs:127-231 | a page answers every entry between its start and its cursor |
| `PullResume.DeliveryIsExact` | crates/zann-client/src/sync.rs:373-455 | an uninterrupted pull delivers each entry past the cursor once, in ascending order, and nothing else |
| `PullResume.DeliveryAdvances` | crates/zann-client/src/sync.rs:435-453 | each page moves the boundary of the delivery, and a further page means progress, so the loop ends |
| `PullResume.OneCut` | crates/zann-client/src/sync.rs:373-466 | against a log that stands still, one cut, before or after the cursor is saved, and a rerun give the store of an uncut pull |
| `PullResume.CutsLeaveNoTrace` | crates/zann-client/src/sync.rs:373-466 | against a log that stands still, any number of cut attempts followed by one full pull end in the whole store of an uncut pull |
| `PullConverge.RunKeepsTrace` | crates/zann-client/src/sync.rs:373-466 | over every run a row is the start's or was pulled since, newer, live and of the same identity |
| `PullConverge.CutsConverge` | crates/zann-client/src/sync.rs:373-466 | while other devices keep committing: two runs from one start, over any pages, failures, crashes and interleavings, that end at the end of the same log have the same row and history for every item of the log |
| `ConflictStep.CandidatesDiffer` | crates/zann-client/src/sync_helpers.rs:157-173 | the names a search can reach are pairwise different |
| `ConflictStep.SearchSkipsTaken` | crates/zann-client/src/sync_helpers.rs:157-173 | the search passes over taken names only and stops at a free one unless it runs out |
| `ConflictStep.ChosenPathIsFree` | crates/zann-client/src/sync_helpers.rs:157-173 | the chosen path is free if and only if one of the seven candidates is |
| `ConflictStep.ConflictKeepsPayload` | crates/zann-client/src/sync_helpers.rs:136-207 | the step before the database has its say: exactly one row, status Conflict, the pending payload and its checksum, old version kept; its path is free whenever one of the first six names is |
| `ConflictStep.RefusedChangeIsKept` | crates/zann-client/src/sync_helpers.rs:136-207 | a refused change with a payload becomes exactly one row with its own path (else "conflict") and its own name (else the path), both with the first ending whose path is free or else the seventh; type (else "login"), payload, checksum, version and deletion mark are spelt out; without a payload nothing changes |
| `ConflictWrites.SuffixKeepsPathOk` | crates/zann-db/migrations/0001_init.sql:67-77 | the conflict suffix keeps a path legal or illegal |
| `ConflictWrites.ClashIffExhausted` | crates/zann-db/migrations/0001_init.sql:80-82 | the conflict row meets a live row of another item if and only if all seven names are used up |
| `ConflictWrites.WrittenIff` | crates/zann-db/migrations/0001_init.sql:47-82 | the cache takes the conflict row if and only if name and path fit with the suffix, the path is legal and not all seven names are used up |
| `ConflictWrites.CheckedKeepsTable` | crates/zann-db/migrations/0001_init.sql:47-82 | on a table that meets its constraints (names up to 200, paths up to 500, no leading dot, no slash before a dot or a slash, live paths unique), a conflict row is stored exactly when the table with it still meets them |
| `ConflictWrites.TurnDecides` | crates/zann-client/src/sync.rs:356-369 | over a whole list of conflicts, the turn of a change decides whether its payload is kept |
| `ConflictWrites.RefusedEditIsKeptIff` | crates/zann-client/src/sync.rs:356-369 | after a whole reply the queue row is gone, and its payload is in some conflict row if and only if the cache took the row when its turn came |
| `PushQueue.LastQueuedIsLast` | crates/zann-client/src/sync.rs:286-290 | indexing the queue by item keeps exactly the last queued change of each item |
| `PushQueue.ReconcileIsExact` | crates/zann-client/src/sync.rs:339-369 | a queue row disappears if and only if it is the last queued change of an item named in the reply; every other row of any vault is unchanged |
| `PushQueue.ConflictsInTurn` | crates/zann-client/src/sync.rs:356-369 | each refusal is handled in the table the earlier ones left, for the last queued change of its item and with its own clock reading and id |
| `PushQueue.FullyAcknowledgedQueueIsEmpty` | crates/zann-client/src/sync.rs:348-369 | with one change per item and every item named, the vault's queue is empty |
| `PushQueue.OlderChangeStays` | crates/zann-client/src/sync.rs:286-290 | an older change of an item survives its acknowledgement |
| `PushCursor.AcceptedLog` | crates/zann-server/src/domains/sync/service.rs:639-690 | an accepted push adds entries of the pushed items only and loses none |
| `PushCursor.AcceptedEntries` | crates/zann-server/src/domains/sync/service.rs:639-701 | one log entry and one line of the reply per change, in order: the same number, the stored time, and for a deletion that time as its deletion time |
| `PushCursor.AcceptedItems` | crates/zann-server/src/domains/sync/http/v1/handlers/push_apply.rs:85-144 | each item holds the content of its last pushed change, or what it held |
| `PushCursor.AcceptedRows` | crates/zann-client/src/sync_helpers.rs:248-277 | after the acknowledgements every pushed row is at its newest number and every other row is unchanged |
| `PushCursor.CommittedIsLast` | crates/zann-server/src/domains/sync/service.rs:639-690 | what is committed after a moment is numbered past everything of that moment |
| `PushCursor.AgreedReachesBest` | crates/zann-client/src/sync_helpers.rs:308-320 | the last number agreed with the server follows the best change of a delivery, as the row does |
| `PushCursor.PullFromEndCatchesUp` | crates/zann-client/src/sync.rs:370-455 | a pull from the end of the log of some moment leaves the replica caught up, measured by agreed numbers and not by local versions, if and only if it had got all of that moment, except items committed to again later, and no local version keeps those out |
| `PushCursor.AcceptedAgreed` | crates/zann-client/src/sync_helpers.rs:248-277 | acknowledged items are agreed on at their latest number, all others as before |
| `PushCursor.AcceptedSyncCatchesUp` | crates/zann-server/src/domains/sync/service.rs:687-701 | with commits of other devices before the push, between its commit and the reading of its cursor, and before the pull: the replica ends caught up if and only if it had got every entry of an item it does not push and nothing fell in between, except what is told again later, and no local version keeps that out |
| `PushCursor.AcceptedSyncCatchesUpAtOnce` | crates/zann-server/src/domains/sync/service.rs:687-701 | when nothing is told again: caught up if and only if nothing was skipped and no commit fell in between |
| `PushCursor.RefusedSyncCatchesUp` | crates/zann-server/src/domains/sync/service.rs:671-685 | a sync with a refused push leaves the replica caught up if and only if it had got the whole log when the cursor was read, except what is told again later, and no local version keeps that out |
| `PushCursor.ConflictCauseIsNotFetched` | crates/zann-server/src/domains/sync/service.rs:671-685 | a refused change whose base lies below the item's latest number, however its row was numbered up locally, leaves a row that is not the server's, and the cause of the conflict is not got, unless the item is committed to again before the pull |
| `OfflineRuns.AcceptedEach` | crates/zann-server/src/domains/sync/http/v1/handlers/push_apply.rs:640-693 | every change of an accepted push is the latest entry of its item, with its content, and its acknowledgement says so |
| `OfflineRuns.NextKeepsInv` | crates/zann-client/src/sync.rs:269-466 | creations, edits and deletions at any moment, landing and lost pushes, replies, refusals, pulls and crashes keep: unchanged rows agree with the server, queued rows are what was queued unless the server moved on, acknowledgements on their way are true, every entry a cursor passed was got or is written down |
| `OfflineRuns.LifeKeepsInv` | crates/zann-client/src/sync.rs:269-466 | the same over every life of a client |
| `OfflineRuns.OfflineLifeAgrees` | crates/zann-client/src/sync.rs:269-466 | over every life of an offline-first client, an item whose latest change lies at or below the saved cursor got that change unless it is written down as missed, and if its row carries no local change it has the server's content and number, and its history unless this client pushed it; the only rows left out are of items changed between a push of theirs and its reply |
| `OfflineWindow.ReplyMatchesIff` | crates/zann-client/src/sync_helpers.rs:248-277 | an acknowledged row whose change is still the latest is the server's if and only if its draft was not changed between the push and the reply |
| `OfflineWindow.EditInFlightIsMisreported` | crates/zann-db/src/services/mod.rs:162-189 | an edit in that window ends as a synced row at the server's latest number with content the server does not have, and its queued change is accepted if and only if its base was past the push |
| `OfflineWindow.OnlyRepliesLoosen` | crates/zann-client/src/sync.rs:339-355 | an item is left out of the agreement only by a reply, and only if it was changed between the push and that reply |
| `OfflineWindow.OnlyPassedIsMissed` | crates/zann-client/src/sync.rs:370 | a change is written down as missed only by a reply that passes it over, or by a pull that a local version or another storage's row keeps out, and it was not got |
| `OfflineWindow.RefusedDeletionIsForgotten` | crates/zann-client/src/sync_helpers.rs:142-145 | a refused deletion leaves the queue while the row stays deleted |
| `OfflineSkips.SkippedForGood` | crates/zann-client/src/sync.rs:269-466 | over every later life, an item that all cursors have passed keeps its row and agreed number until it is committed to or changed here |
| `OfflineSkips.PushLosesForGood` | crates/zann-client/src/sync.rs:370 | a push that lands while another item's latest change was not got loses that change through every later life, until the item is committed to or changed here |
| `OfflineSkips.LostUpdateExample` | crates/zann-client/src/sync.rs:370 | two devices without any conflict: through every later life one device does not get the other's change |
| `OfflineEdits.NewIs` | crates/zann-db/src/services/items.rs:227-325 | a new item: its row field by field, version 1, a queued creation |
| `OfflineEdits.EditIs` | crates/zann-db/src/services/mod.rs:412-631 | an edit, or going back to an older content: the next version with that content, and one queued change that stays a creation or keeps its base; nothing else changes but the note of a push on its way |
| `OfflineEdits.RemoveIs` | crates/zann-db/src/services/items.rs:326-382 | a deletion: the next version as a tombstone with its content, and one queued deletion on the same base |
| `OfflineEdits.DiscardIs` | crates/zann-db/src/services/items.rs:335-354 | deleting an item the server has never seen takes its creation out of the queue |
| `OfflineEdits.FirstBaseStays` | crates/zann-db/src/services/mod.rs:162-189 | over any sequence of local changes of any items, the queued change of an item is sent on top of the version the first of them was made on |
| `OfflineEdits.AcceptsIff` | crates/zann-server/src/domains/sync/http/v1/handlers/push_apply.rs:85-144 | a creation is accepted if and only if the item has no log entry, a change if and only if it has one and none is newer than its base |
| `OfflineEdits.LandedIs` | crates/zann-server/src/domains/sync/http/v1/handlers/push_apply.rs:85-144 | a push that lands: every queued draft is stored and logged as creation, update or deletion, other items stay, and the client only notes what it sent |
| `OfflineEdits.ReplyTakes` | crates/zann-client/src/sync.rs:339-371 | the reply takes out of the queue exactly what was sent and not changed since, and moves the cursor to the end of the log |
| `OfflineEdits.PushEmptiesQueue` | crates/zann-client/src/sync.rs:281-371 | a push and its reply with no change in between leave an empty queue |
| `OfflineEdits.RefusalTakes` | crates/zann-client/src/sync.rs:356-371 | a refusal takes exactly the named changes out of the queue; one that is no deletion is kept under its own path and name with an ending |
| `CacheRuns.VersionDropsOnlyByAck` | crates/zann-client/src/sync_helpers.rs:136-493 | rows never vanish, and a version goes down if and only if an acknowledgement numbers it lower |
| `CacheRuns.StepWrites` | crates/zann-client/src/sync_helpers.rs:136-493 | what each step of a run writes, field by field: a newer pull its row and history, an acknowledgement number, times and status of one row, a refusal one conflict row; nothing else |
| `CacheRuns.StepKeepsStatus` | crates/zann-client/src/sync_helpers.rs:136-493 | each step keeps: Synced rows carry no deletion time, tombstones carry one |
| `CacheRuns.RunsKeepStatus` | crates/zann-client/src/sync_helpers.rs:136-493 | the same over every interleaving of pulls, shared pulls, acknowledgements and conflict steps |
| `CacheRuns.RunsKeepVersions` | crates/zann-client/src/sync_helpers.rs:136-493 | over every run whose acknowledgements are not behind the cache, no row disappears and no version goes down |
| `CacheRuns.RemoteDeletionStaysLive` | crates/zann-server/src/domains/sync/http/v1/types.rs:46-58 | a remote deletion that lands leaves a live synced row with an empty payload |
| `CacheRuns.SharedRowIs` | crates/zann-client/src/sync_helpers.rs:388-466 | a change of a shared vault, field by field: nothing without a seal or against a row at least as new, else the sealed payload with its checksum, or neither, and path, name, type, times, status and history of the change |
| `PathIndex.IndexMattersIffRefused` | crates/zann-db/migrations/0001_init.sql:80-82 | for one change, the unique index changes the outcome if and only if it refuses it |
| `PathIndex.IndexHolds` | crates/zann-db/migrations/0001_init.sql:80-82 | over any delivery live paths stay unique per storage and vault, and a change is dropped exactly when writing it would break that |
| `PathIndex.LastDecides` | crates/zann-db/migrations/0001_init.sql:80-82 | over an ascending delivery the last change of an item decides whether its row and history come out as without the index |
| `PathIndex.IndexedAgreesIff` | crates/zann-db/migrations/0001_init.sql:80-82 | over every ascending delivery, pulls into the indexed table are the plain join if and only if the index lets through every item's last change that is newer than the cache |
| `PathIndex.PullsAreTraceable` | crates/zann-client/src/sync_helpers.rs:279-386 | every row after pulls is the start row or carries path and deletion time of a change of its item |
| `PathIndex.ApartPathsAreNeverRefused` | crates/zann-db/migrations/0001_init.sql:80-82 | so it is for every delivery, ascending or not, whose live paths are apart |
| `PathIndex.RecreatedItemIsRefused` | crates/zann-db/migrations/0001_init.sql:80-82 | deleting one item and creating another under its path loses the new one on the replica |
| `Gate.RunPins` | crates/zann-client/src/sync.rs:42-49 | a run sets the fingerprint only when none was set, and only to its own key's; a run that stops early sets none |
| `Gate.RunLocksIff` | crates/zann-client/src/sync.rs:42-49 | in every finished run a known vault is reported as locked if and only if it is not a server-encrypted shared one and either another fingerprint is pinned or the key does not open its sealed key (the one made on the spot, if it had none); a vault that is not locked has its pulled cursor saved, and after a personal one the key is pinned |
| `Gate.SetupStopsIff` | crates/zann-client/src/sync.rs:153-267 | the first loop ends the run if and only if the new key of some personal vault without any key cannot be stored |
| `Gate.SyncedVaultIs` | crates/zann-client/src/sync.rs:269-476 | one synced vault: a failed push changes nothing; otherwise acknowledgements, conflict rows, queue and pulled changes in that order, and the cursor is saved if and only if the pull was not aborted |
| `Gate.UnknownVaultIs` | crates/zann-client/src/sync.rs:153-211 | a listed vault the cache does not know is not synced, and reported as locked if and only if it is a personal one and another fingerprint is pinned |
| `Gate.PinnedForever` | crates/zann-client/src/sync.rs:192-197 | across any sequence of syncs with any keys, a fingerprint once set never changes |
| `ReplicaModel.AcksReach` | crates/zann-client/src/sync_helpers.rs:248-277 | acknowledgements reach a row by storage and item alone: the last one about it decides |
| `ReplicaModel.AckedRowIs` | crates/zann-client/src/sync_helpers.rs:248-277 | field by field: the last acknowledgement of a row of this storage gives it number, time, deletion mark and status, its content stays, and all other rows stay |
| `Gate.PullsKeepIff` | crates/zann-client/src/sync_helpers.rs:308-320 | a delivery leaves row and history of an item alone if and only if no change of it is newer |
| `Gate.SyncKeepsOthers` | crates/zann-client/src/sync.rs:269-466 | the turn of one vault leaves items, history, queue and cursor of another alone if what the server sends says nothing new about its rows |
| `Gate.SyncKeepsOthersIff` | crates/zann-client/src/sync.rs:269-466 | and only then, for acknowledgements not behind the cache |
| `Gate.BarredIsUntouched` | crates/zann-client/src/sync.rs:235-238 | a vault the fingerprint bars is untouched by all turns |
| `Gate.LockedIsUntouched` | crates/zann-client/src/sync.rs:208-267 | a vault that gets locked during the turns is untouched by all of them |
| `Gate.LockedVaultsAreUntouched` | crates/zann-client/src/sync.rs:153-467 | a vault reported as locked keeps items, history, queue and cursor, however the run ends, if in the turns of other vaults the server says nothing new about its rows |
| `Gate.ForeignChangeTouches` | crates/zann-client/src/sync_helpers.rs:308-320 | one newer change of another vault's item in a reply is enough to touch that vault |
| `Replica.ClientDb.ApplyPullChange` | crates/zann-client/src/sync_helpers.rs:279-386 | one change, exactly as the join's step |
| `Replica.ClientDb.ApplyPage` | crates/zann-client/src/sync.rs:435-448 | the changes of a page in order |
| `Replica.ClientDb.PullLoop` | crates/zann-client/src/sync.rs:373-455 | the loop ends, delivers exactly the entries between its two cursors in order, and leaves nothing past the new one unless a request fails |
| `Replica.ClientDb.ApplyPushApplied` | crates/zann-client/src/sync_helpers.rs:248-277 | acknowledged rows take number, times and status of the reply, in order |
| `Replica.ClientDb.FindConflictName` | crates/zann-client/src/sync_helpers.rs:157-173 | the retry loop ends at the first free name or after its last retry |
| `Replica.ClientDb.HandleSyncConflict` | crates/zann-client/src/sync_helpers.rs:136-207 | the conflict row that `ConflictStep.RefusedChangeIsKept` spells out; nothing for a change without a payload |
| `Replica.ClientDb.IndexByItem` | crates/zann-client/src/sync.rs:286-290 | the index maps exactly the queued items to their last change |
| `Replica.ClientDb.HandleConflicts` | crates/zann-client/src/sync.rs:356-369 | conflict rows in order, and the queue rows they stand for |
| `Replica.ClientDb.Reconcile` | crates/zann-client/src/sync.rs:339-369 | acknowledged rows, conflict rows and the reduced queue |
| `Replica.ClientDb.Sync` | crates/zann-client/src/sync.rs:269-467 | the whole turn of one vault for any traffic: push, pull, saved cursor, or an early end |
| `Replica.ClientDb.SyncLive` | crates/zann-client/src/sync.rs:269-467 | the turn against the server itself: the pull starts at the push reply's cursor or the saved one, delivers exactly the entries from there to the saved cursor, and is the turn above with that traffic |
| `Replica.ClientDb.RunSync` | crates/zann-client/src/sync.rs:153-471 | both loops over the vaults, the locked list and the fingerprint, as `Gate.RunLocksIff` spells them out |
| `Paths.JoinSplit` | apps/kde/src/cxxqt.rs:2045-2060 | joining the parts of a path gives it back |
| `Paths.SplitJoin` | apps/kde/src/cxxqt.rs:2045-2060 | slash-free parts joined split into themselves |
| `Paths.RSplitParent` | apps/kde/src/cxxqt.rs:2082 | splitting at the last slash drops exactly the last part |
| `Paths.InsideIsPrefix` | apps/kde/src/cxxqt.rs:2186-2189 | the string test "is the folder or starts with it and a slash" is the prefix test on parts |
| `FolderCounts.PlaceOf` | apps/kde/src/cxxqt.rs:2041-2051 | a cleaned path has no folder or a well-named one |
| `FolderCounts.PlaceIs` | apps/kde/src/cxxqt.rs:2040-2055 | space around a path and a slash at its ends do not matter, the last name is the item's own and the names before it are its folder; a path of spaces puts an item nowhere |
| `FolderCounts.DoubledSlash` | apps/kde/src/cxxqt.rs:2045 | a doubled slash counts once, wherever it stands |
| `FolderCounts.TotalIsSum` | apps/kde/src/cxxqt.rs:2091-2104 | the items under a folder are its own plus those under its children |
| `FolderCounts.FolderedPlusLoose` | apps/kde/src/cxxqt.rs:2040-2062 | items with a folder and items without one are all items with a path |
| `FolderTree.FolderNamesAre` | apps/kde/src/cxxqt.rs:2052-2059 | the collected paths are exactly the folders some item lies in or under, every prefix included |
| `FolderTree.OwnCountsAre` | apps/kde/src/cxxqt.rs:2060-2061 | the counted map gives for every path the number of items directly in it |
| `FolderTree.RootsCoverAll` | apps/kde/src/cxxqt.rs:2106-2108 | root totals plus loose items are all items with a non-blank path |
| `FolderTree.Builder.Scan` | apps/kde/src/cxxqt.rs:2040-2062 | folder paths, own counts and the loose count of the items |
| `FolderTree.Builder.MakeNodes` | apps/kde/src/cxxqt.rs:2064-2079 | one node per path with its own count and no children |
| `FolderTree.Builder.Link` | apps/kde/src/cxxqt.rs:2081-2089 | every path is a child of the folder one level up, or a root |
| `FolderTree.Builder.ComputeTotal` | apps/kde/src/cxxqt.rs:2091-2104 | it ends, answers the number of items under the folder, and sets the totals of that subtree and of nothing else |
| `FolderTree.Builder.TotalRoots` | apps/kde/src/cxxqt.rs:2106-2108 | afterwards every node's total is right |
| `FolderTree.Builder.Build` | apps/kde/src/cxxqt.rs:2024-2108 | for every item list: nodes, names, children, own counts, totals, roots and the loose count are those of a plain scan, and add up |
| `FolderFilter.RebuildFilteredItems` | apps/kde/src/cxxqt.rs:2137-2148 | exactly the matching positions, ascending, and their number |
| `FolderFilter.FilterIsUnder` | apps/kde/src/cxxqt.rs:2180-2189 | on a normalised path the filter's string test is the tree's prefix test |
| `FolderFilter.FilterKeeps` | apps/kde/src/cxxqt.rs:2159-2190 | the whole filter: the category's own conditions on deletion and type replace the trash rule, a folder keeps exactly the paths that start with it and a slash, the marker those without a slash |
| `FolderFilter.FilterAgreesWithTree` | apps/kde/src/cxxqt.rs:2159-2190 | the number kept for a folder is the tree's total, the number kept for "no folder" the tree's loose count |
| `FolderFilter.MarkerNamedFolder` | apps/kde/src/cxxqt.rs:2183-2185 | a folder named like the marker is counted by the tree and never kept by the filter |
| `FolderFilter.SelectableIff` | apps/kde/src/cxxqt.rs:2180-2189 | filter and tree agree on a folder over every list of normalised paths if and only if it is not named like the marker |
| `FolderTreeWeb.SamePlaces` | apps/desktop/src/composables/useFolders.ts:25-35 | on normalised paths of live items both front ends see the same folders |
| `FolderTreeWeb.WebPlaceIs` | apps/desktop/src/composables/useFolders.ts:25-34 | a deleted item is nowhere, one without a slash is loose, the others are in the folder before the last slash |
| `FolderTreeWeb.EnterUpToIsForest` | apps/desktop/src/composables/useFolders.ts:39-48 | entering a folder keeps the forest and adds exactly its prefixes |
| `FolderTreeWeb.EnterPlacesIsForest` | apps/desktop/src/composables/useFolders.ts:25-49 | the first pass builds a forest over exactly the folders of the items |
| `FolderTreeWeb.ListsAreInOrder` | apps/desktop/src/composables/useFolders.ts:36-49 | roots and children are listed in the order in which the items first mention them |
| `FolderTreeWeb.FoldersRightIff` | apps/desktop/src/composables/useFolders.ts:39-48 | the first pass finds exactly the folders of the items if and only if no folder of two or more parts starts with an empty one |
| `FolderTreeWeb.CountPlacesCounts` | apps/desktop/src/composables/useFolders.ts:51-63 | the second pass sets the item counts and changes no list |
| `FolderTreeWeb.EnterFolder` | apps/desktop/src/composables/useFolders.ts:35-48 | the inner loop of the first pass, for every list of parts |
| `FolderTreeWeb.EnterAll` | apps/desktop/src/composables/useFolders.ts:25-49 | the first pass and the loose count, for every item list |
| `FolderTreeWeb.CountItems` | apps/desktop/src/composables/useFolders.ts:51-63 | the second pass |
| `FolderTreeWeb.EnterPlacesRanked` | apps/desktop/src/composables/useFolders.ts:39-48 | on every item list the first pass creates parents before children, so every walk down the tree ends |
| `FolderTreeWeb.CountTotal` | apps/desktop/src/composables/useFolders.ts:65-68 | it ends on every tree the first pass builds; on a right tree it answers the items under the node and sets the totals below it only |
| `FolderTreeWeb.TotalAll` | apps/desktop/src/composables/useFolders.ts:69 | on a right tree every total is right afterwards |
| `FolderTreeWeb.FolderTreeData` | apps/desktop/src/composables/useFolders.ts:20-85 | on every item list: the finished tree is that of a plain scan if and only if no folder of two or more parts starts with an empty one; names and the loose count are always right, and on a right tree every list is in the order in which the items mention its folders |
| `FolderTreeWeb.SpecificationIsUnique` | apps/desktop/src/composables/useFolders.ts:20-85 | that specification fixes folders, counts, totals and children |
| `FolderTreeWeb.FrontEndsAgree` | apps/desktop/src/composables/useFolders.ts:20-85 | trees that meet the specifications of both front ends have the same folders, counts, totals, children and loose count |
| `FolderTreeWeb.BothTrees` | apps/desktop/src/composables/useFolders.ts:20-85 | the two programs, run on the same live items with normalised paths, build the same folders, counts, totals, children, roots and loose count |
| `Paging.DescendingIsUnique` | crates/zann-db/src/local/item_repo.rs:435-452 | the sorted answer of a query is determined by its rows |
| `Paging.ListingIs` | crates/zann-db/src/local/item_repo.rs:309-454 | the query lists exactly the rows of the storage and vault, live or wanted all the same, past the cursor, newest first and equal times by descending id |
| `Paging.PagedIs` | crates/zann-db/src/local/item_repo.rs:309-454 | a page is the first rows of the query up to the limit, all of them for a negative one |
| `Paging.ListingContinues` | crates/zann-db/src/local/item_repo.rs:385-421 | a query past a row lists exactly what follows that row |
| `Paging.ScanDescends` | crates/zann-db/src/local/item_repo.rs:309-454 | whatever is written between pages, keys come out strictly descending |
| `Paging.ScanIsHonest` | crates/zann-db/src/local/item_repo.rs:309-454 | every listed row was selected in the table its page was read from |
| `Paging.ScanIsExact` | crates/zann-db/src/local/item_repo.rs:309-454 | a finished scan lists a row whose key, vault and deleted flag stay fixed exactly once if the query selects it, and never otherwise |
| `Paging.QuietScanIsListing` | crates/zann-db/src/local/item_repo.rs:309-454 | without writes the pages concatenate to the single sorted query, and the scan finishes exactly with one page more than full pages |
| `Paging.PageLimit` | crates/zann-db/src/services/items.rs:53 | the page size is the one asked for, cut to 1 to 1000, and 200 if none is |
| `Paging.SkippingLoses` | crates/zann-db/src/services/items.rs:126-131 | a list without every (limit + 1)-st element is shorter by the number of full groups and complete if and only if it fits one page |
| `Paging.SkippingKeeps` | crates/zann-db/src/services/items.rs:126-131 | a position survives if and only if it does not end a group |
| `Paging.BrowseIsExact` | crates/zann-db/src/services/items.rs:47-147 | paging through the service shows exactly the rows whose position does not end a group of limit + 1, so all of them if and only if they fit one page |
| `Paging.ItemList.LoadMore` | apps/kde/src/cxxqt.rs:708-770 | loading more only appends, gets along the same final list, and changes nothing when locked, finished or failed |
| `History.MergeIsExact` | crates/zann-db/src/local/item_history_repo.rs:212-307 | the loop amounts to: every pending row takes over the first entry of its version, other rows stay, the remaining entries are added; it fails exactly if one of their ids is taken |
| `History.MergedRowsAre` | crates/zann-db/src/local/item_history_repo.rs:212-307 | column by column: a pending row of the item whose version comes in keeps id, storage, vault and item and takes version, status and all copied columns of the first entry of that version; every other row stays; every entry that took over nothing is a new row |
| `History.PruneIsExact` | crates/zann-db/src/local/item_history_repo.rs:329-354 | pruning keeps min(keep, count) confirmed rows, none older than a pruned one, everything else, and repeats to no effect, in whatever order equal versions are listed |
| `History.PrunedRowsAre` | crates/zann-db/src/local/item_history_repo.rs:329-354 | a row goes if and only if it is a confirmed one of the item listed at position `keep` or later |
| `History.MergeThenPrune` | crates/zann-db/src/local/item_history_repo.rs:212-327 | no pending row with an incoming version is left, rows not concerned are unchanged, the confirmed count is min(keep, count before), what is pruned is oldest, a following prune deletes nothing |
| `History.MergeKeepsVersionsUnique` | crates/zann-db/src/local/item_history_repo.rs:223-307 | no version is confirmed twice afterwards if and only if none was before and every incoming version is new |
| `History.SecondMergeEvicts` | crates/zann-db/src/local/item_history_repo.rs:212-327 | merging one answer twice keeps the newest version twice and loses the older one |
| `History.ReplaceIsExact` | crates/zann-db/src/local/item_history_repo.rs:149-210 | replacing leaves exactly the given entries of the item and all other rows, fails exactly on taken ids, and is idempotent |
| `History.ReplacedRowsAre` | crates/zann-db/src/local/item_history_repo.rs:149-210 | rows of other items stay, rows of the item are exactly the given entries |
| `History.OrderByVersion` | crates/zann-db/src/local/item_history_repo.rs:312-316 | an order of the confirmed rows by version, ties in any order |
| `History.HistoryRepo.MergeByItem` | crates/zann-db/src/local/item_history_repo.rs:212-327 | the transaction: merged and pruned as `History.MergedRowsAre` and `History.PrunedRowsAre` spell out, or rolled back |
| `History.HistoryRepo.PruneByItem` | crates/zann-db/src/local/item_history_repo.rs:329-354 | the pruned table and the number of rows deleted |
| `History.HistoryRepo.ReplaceByItem` | crates/zann-db/src/local/item_history_repo.rs:149-210 | the transaction: replaced, or rolled back |
| `Base32.WrapKeepsResidue` | apps/desktop/src/security/identity.ts:12 | 32-bit wrap-around keeps every residue that matters |
| `Base32.ByteEnters` | apps/desktop/src/security/identity.ts:11-13 | shifting a byte in keeps the low bits of the accumulator equal to the pending bits |
| `Base32.QuintetLeaves` | apps/desktop/src/security/identity.ts:14-17 | the five bits shifted out are the first five pending ones, whatever was lost above |
| `Base32.RestLeaves` | apps/desktop/src/security/identity.ts:20-22 | the last group is the pending bits filled with zeros |
| `Base32.EmitQuintets` | apps/desktop/src/security/identity.ts:14-17 | the inner loop spells the finished groups and leaves fewer than five bits |
| `Base32.EmitRest` | apps/desktop/src/security/identity.ts:20-24 | the last letter completes the encoding |
| `Base32.Base32Encode` | apps/desktop/src/security/identity.ts:6-25 | for byte strings of every length the wrapping encoder is the unpadded encoding of section 6 of RFC 4648 in lower case |
| `Base32.LetterIs` | apps/desktop/src/security/identity.ts:6-25 | letter j of the encoding is the alphabet's letter for input bits 5j to 5j + 4, highest first, with zeros past the end |
| `Base32.DecodesBack` | apps/desktop/src/security/identity.ts:6-25 | a reference decoder recovers every input |
| `Base32.EncodingIsInjective` | apps/desktop/src/security/identity.ts:6-25 | different byte strings never share an encoding |
| `BlobCodec.ToBytes` | crates/zann-crypto/src/crypto.rs:80-101 | the printed form of a blob |
| `BlobCodec.FromBytes` | crates/zann-crypto/src/crypto.rs:108-122 | the parsed form or the error, never out of range on any input |
| `BlobCodec.PrintedLayout` | crates/zann-crypto/src/crypto.rs:80-101 | where each byte of a printed blob comes from: the letters ZAN, version 1, little-endian key number and lengths, the two algorithms, the three sections |
| `BlobCodec.RefusedIff` | crates/zann-crypto/src/crypto.rs:108-202 | exactly which byte strings are accepted, and which are refused for their version |
| `BlobCodec.RoundTrip` | crates/zann-crypto/src/crypto.rs:80-122 | printing and parsing give the blob back if and only if both sections are at most 1024 bytes; otherwise the parser refuses it |
| `BlobCodec.AcceptedIsPrinted` | crates/zann-crypto/src/crypto.rs:172-202 | every accepted byte string is the printed form of what it parses to |
| `BlobCodec.CodecIsBijective` | crates/zann-crypto/src/crypto.rs:80-202 | a byte string parses to a blob if and only if it is that blob's printed form and the sections fit |
| `Envelope.UnwrapsBack` | crates/zann-crypto/src/crypto.rs:219-255 | a wrapped key unwraps to itself, and its wrapped form fits the section limit |
| `Envelope.OpensLikePayload` | crates/zann-crypto/src/crypto.rs:257-280 | decrypting under any associated data is opening the payload with the very key it was sealed with |
| `Envelope.HeaderIsBound` | crates/zann-crypto/src/crypto.rs:204-217 | a changed header: other algorithms are refused by number, another key number makes decryption fail if and only if the cipher does not open the text under the changed header |
| `Envelope.BlobIs` | crates/zann-crypto/src/crypto.rs:130-162 | what an encrypted blob is made of: key number 0, algorithm 1 twice, a wrapped key of 72 bytes, the nonce drawn, and the payload sealed under header and data |
| `Envelope.OpensIff` | crates/zann-crypto/src/crypto.rs:219-280 | exactly which blobs open, to what, and which are refused for their algorithm |
| `Envelope.CorrectIsMet` | crates/zann-crypto/src/crypto.rs:130-162 | the one law assumed of the cipher is met by an interface that seals everything |
| `Envelope.EnvelopeEndToEnd` | crates/zann-crypto/src/crypto.rs:130-280 | encrypt, print, parse, decrypt returns the plaintext for all keys, nonces, texts and data; under other associated data it fails if and only if the cipher does not open this one sealed text under other data |
| `Envelope.AadIsInjective` | crates/zann-crypto/src/vault_crypto.rs:44-65 | associated data are injective and pairwise disjoint between purposes |
| `Envelope.AadIs` | crates/zann-crypto/src/vault_crypto.rs:44-65 | the associated data of each purpose: its label, the vault, and for item data the item |
| `Envelope.OpenForIs` | crates/zann-crypto/src/vault_crypto.rs:67-162 | bytes that are no blob, a blob that does not open and a vault key of the wrong length are told apart |
| `Envelope.OpensForItsPurposeOnly` | crates/zann-crypto/src/vault_crypto.rs:67-162 | what is sealed for one purpose, vault and item opens for it, to the plaintext; for any other, decryption fails if and only if the cipher does not open this one sealed text under the other's data |
| `SchedulerRuns.StepKeepsOneCall` | apps/desktop/src/composables/useStorages.ts:202-326 | each event keeps: at most one call in flight, and the busy flag says whether |
| `SchedulerRuns.StepKeepsTimers` | apps/desktop/src/composables/useStorages.ts:328-381 | each event keeps: the armed timers of a kind are exactly the remembered one |
| `SchedulerRuns.RunKeepsInv` | apps/desktop/src/composables/useStorages.ts:202-381 | over every interleaving at most one `remote_sync` is in flight and at most one timer of each kind is armed |
| `SchedulerRuns.EveryRunIsSafe` | apps/desktop/src/composables/useStorages.ts:202-381 | so it is from the start of the application on, with the backoff index in range |
| `SchedulerRuns.StepBackoff` | apps/desktop/src/composables/useStorages.ts:309-317 | what each event does to the backoff index |
| `SchedulerRuns.BackoffIsStreak` | apps/desktop/src/composables/useStorages.ts:309-347 | over every run the index is min(5, consecutive retryable failures since the last reset), and the delay is the matching step |
| `SchedulerRuns.PendingIsServed` | apps/desktop/src/composables/useStorages.ts:203-207 | a request made while busy is served when that call ends, unless a later request or a stop intervenes: a call for exactly its storages if unlocked and online, else a place in the queue if only the network is missing, else nothing |
| `SchedulerRuns.EndServesPending` | apps/desktop/src/composables/useStorages.ts:318-323 | every way a call can end attempts the pending request |
| `SchedulerSteps.AskingStep` | apps/desktop/src/composables/useStorages.ts:202-245 | whoever asks for a sync: a call for the remote storages concerned starts if and only if none is in flight, the application is unlocked, the network is there and there is such a storage; the request is queued if and only if only the network is missing; it waits if and only if a call is in flight; what each storage then shows |
| `SchedulerSteps.LockedNeverSyncs` | apps/desktop/src/composables/useStorages.ts:209-211 | over every run without an unlocking, a locked application with nothing in flight never starts a call |
| `SchedulerSteps.FailureMeans` | apps/desktop/src/composables/useStorages.ts:141-308 | which errors count as offline, as the end of the session, and as worth retrying, kind by kind |
| `SchedulerSteps.EndingStep` | apps/desktop/src/composables/useStorages.ts:267-325 | how a call ends while no request waits: what its storages show, the reachable flag, the queue, the backoff index and the callback that may go on |
| `SchedulerSteps.EndThenAsks` | apps/desktop/src/composables/useStorages.ts:318-323 | a call that ends while a request waits does exactly what its end and then that request would do |
| `SchedulerSteps.GoingOn` | apps/desktop/src/composables/useStorages.ts:243-303 | a good answer shows the storages as synced and the server as reachable and goes on to reload; a session error only waits for the handler |
| `SchedulerSteps.SwitchingStep` | apps/desktop/src/composables/useStorages.ts:328-381 | everything that starting, stopping, debouncing, resuming and the network events change |
| `SchedulerLife.StepLife` | apps/desktop/src/composables/useStorages.ts:349-381 | one event ends automatic sync if and only if it is a stop with no callback suspended or the break of the last callback |
| `SchedulerLife.AutoSyncLives` | apps/desktop/src/composables/useStorages.ts:349-365 | automatic sync goes on through every run without such an event |
| `SchedulerLife.StopIsFinal` | apps/desktop/src/composables/useStorages.ts:349-381 | no later run without a start arms an automatic timer if and only if no timer callback was suspended at the stop |
| `SchedulerLife.StatusIsTruthful` | apps/desktop/src/composables/useStorages.ts:225-303 | over every run in which the session handler does not throw, a storage is shown as syncing only while the call in flight is about it |
| `SchedulerLife.ThrowIsTruthful` | apps/desktop/src/composables/useStorages.ts:291-296 | if the handler throws, the status stays truthful if and only if a pending request overwrites every storage shown as syncing |
| `SchedulerLife.StuckSyncing` | apps/desktop/src/composables/useStorages.ts:291-310 | a reachable state in which a storage stays syncing with nothing in flight |
| `SyncScheduler.Scheduler.MarkAll` | apps/desktop/src/composables/useStorages.ts:233-237 | the loops that set a status on every target |
| `SyncScheduler.Scheduler.TargetStorages` | apps/desktop/src/composables/useStorages.ts:213-217 | the remote storages a request is about |
| `SyncScheduler.Scheduler.Launch` | apps/desktop/src/composables/useStorages.ts:202-245 | `runRemoteSync` up to its first `await` or its early return: it gets there if and only if no call is in flight, the application is unlocked, the network is there and there is a remote storage to sync |
| `SyncScheduler.Scheduler.RunRemoteSync` | apps/desktop/src/composables/useStorages.ts:202-245 | the same, with the timer callback that awaits it |
| `SyncScheduler.Scheduler.Finish` | apps/desktop/src/composables/useStorages.ts:309-325 | the `finally` block with the pending request |
| `SyncScheduler.Scheduler.Fail` | apps/desktop/src/composables/useStorages.ts:293-308 | the end of the `catch` block |
| `SyncScheduler.Scheduler.Catch` | apps/desktop/src/composables/useStorages.ts:267-303 | session errors wait for the handler, all others fail at once |
| `SyncScheduler.Scheduler.OnAnswer` | apps/desktop/src/composables/useStorages.ts:243-261 | a call after the back end's answer |
| `SyncScheduler.Scheduler.OnReloaded` | apps/desktop/src/composables/useStorages.ts:263-266 | a call after the reloads |
| `SyncScheduler.Scheduler.OnSessionHandled` | apps/desktop/src/composables/useStorages.ts:284-297 | a call after the session handler, which may throw |
| `SyncScheduler.Scheduler.ScheduleNextAutoSync` | apps/desktop/src/composables/useStorages.ts:349-358 | the old automatic timer is cleared, a new one armed and remembered |
| `SyncScheduler.Scheduler.ScheduleRemoteSync` | apps/desktop/src/composables/useStorages.ts:328-339 | the debounce timer is replaced, if unlocked |
| `SyncScheduler.Scheduler.StartAutoSync` | apps/desktop/src/composables/useStorages.ts:360-365 | a timer is armed unless one is |
| `SyncScheduler.Scheduler.StopAutoSync` | apps/desktop/src/composables/useStorages.ts:367-381 | timers, backoff, pending and queued requests are cleared, the call in flight is not |
| `SyncScheduler.Scheduler.OnTimer` | apps/desktop/src/composables/useStorages.ts:335-357 | a firing timer is forgotten and asks for a sync |
| `SyncScheduler.Scheduler.OnResume` | apps/desktop/src/composables/useStorages.ts:355-356 | a timer callback goes on and arms the next timer |
| `SyncScheduler.Scheduler.HandleOnline` | apps/desktop/src/composables/useStorages.ts:472-477 | back online, the queued request is flushed |
| `SyncScheduler.Scheduler.HandleOffline` | apps/desktop/src/composables/useStorages.ts:479-481 | requests are queued from now on |
| `SyncScheduler.Scheduler.NextDelay` | apps/desktop/src/composables/useStorages.ts:341-347 | in every valid state the regular interval, or the backoff step the index points at |
| `SyncScheduler.Scheduler.constructor` | apps/desktop/src/composables/useStorages.ts:39-56 | the initial state, which is valid; every handler keeps validity |
| `Login.LoginSucceedsIff` | crates/zann-client/src/auth.rs:245-288 | a login succeeds if and only if the storage id the context already has can be read; a failed one leaves the database alone |
| `Login.LoginKeeps` | crates/zann-client/src/auth.rs:229-306 | which storage a login keeps: the id the configuration holds, that of the context or of the one that moved, else the first listed storage of the address, else a new one; exactly the other storages of the address go, with exactly their rows in every table and the contexts that name them |
| `Login.FoundStorageIsKept` | crates/zann-client/src/auth.rs:242-255 | with no id of its own and a listed storage of the address, a login loses no row of that storage |
| `Login.NoneIsFound` | crates/zann-client/src/auth.rs:236-243 | without a storage of the address in the listing none is found, so the login makes a new one |
| `Login.LoginConsolidates` | crates/zann-client/src/auth.rs:229-306 | exactly the kept storage has the address, the current context exists and names it, rows of merged storages are gone and all others there, other storages and contexts are untouched, nothing dangles if and only if references are canonical |
| `Login.DanglingIffMisspelt` | crates/zann-client/src/auth.rs:435-449 | no context refers to a removed storage if and only if such references are spelt canonically |
| `Login.MisspeltReferenceStays` | crates/zann-client/src/auth.rs:436-441 | another spelling of a removed storage's id is overlooked |
| `Login.ContextSurvives` | crates/zann-client/src/auth.rs:442-447 | cleaning up never removes the context that was just entered |
| `Login.Migrated` | crates/zann-client/src/auth.rs:308-339 | a migrated storage id is the one the context of the new name now has |
| `Login.Client.MigrateContext` | crates/zann-client/src/auth.rs:308-339 | the context of the same server moves to the new name unless that name belongs to another server |
| `Login.Client.FindStorage` | crates/zann-client/src/auth.rs:236-243 | the first listed storage with the address |
| `Login.Client.EnterContext` | crates/zann-client/src/auth.rs:245-276 | the configuration that is saved, and its storage id, which `Login.LoginKeeps` spells out |
| `Login.Client.DeleteStorage` | crates/zann-client/src/auth.rs:429-433 | a storage and all its rows are gone, nothing else |
| `Login.Client.ForgetContexts` | crates/zann-client/src/auth.rs:435-449 | exactly the contexts that name the storage are gone |
| `Login.Client.CleanupDuplicateStorages` | crates/zann-client/src/auth.rs:410-451 | every other storage of the address is removed, in whatever order they are listed |
| `Login.Client.ApplyLoginContext` | crates/zann-client/src/auth.rs:229-306 | the whole login, with the early error for an unreadable storage id |
| `RowVersion.NoLostUpdate` | crates/zann-db/src/repo/items.rs:202-247 | for any number of clients that get and update: every success was computed from the row it replaces and leaves the content that was sent, at most one succeeds per version, a row's version is its start plus the successes |
| `RowVersion.LastUpdateStands` | crates/zann-db/src/repo/items.rs:202-247 | over every run of clients that get and update, each row is as at the start or holds what the last successful update of it sent |
| `RowVersion.SeenIsLastRead` | crates/zann-db/src/repo/items.rs:68-98 | what a client has read is the row as it was when the client last asked |
| `RowVersion.NoLostUpdateIff` | crates/zann-server/src/domains/sync/http/v1/handlers/push_apply.rs:389-436 | with pushes in between, every write is made from the row it replaces if and only if every push would have passed the row-version test that `update` makes and the push handler omits |
| `RowVersion.LinearCounts` | crates/zann-db/src/repo/items.rs:202-247 | in a linear history versions count the writes and no version is replaced twice |
| `RowVersion.PushLosesUpdate` | crates/zann-server/src/domains/sync/http/v1/handlers/push_apply.rs:395-419 | a push overwrites an update, two successes raise the version by one |
| `RowVersion.ItemRepo.GetById` | crates/zann-db/src/repo/items.rs:68-98 | the row, or none |
| `RowVersion.ItemRepo.Update` | crates/zann-db/src/repo/items.rs:202-247 | with the content given and the version raised by one if and only if the version matches, untouched otherwise |
| `RowVersion.ItemRepo.PushUpdate` | crates/zann-server/src/domains/sync/http/v1/handlers/push_apply.rs:395-436 | written whatever version the row has |

## Left out

- Gate.LockedVaultsAreUntouched: takes distinct vault ids, and turns of other vaults in which the server says nothing newer about the locked vault's rows; `Gate.SyncKeepsOthersIff` shows that one such word is enough to touch them.
- Gate.SyncKeepsOthersIff: takes queue rows of a vault to name items of that vault and new ids to be new, as the client itself sees to, and acknowledgements not behind the cache.
- OfflineRuns.OfflineLifeAgrees: the server stores a pushed change as it was sent, for the local services have normalised it; rows of items changed between a push of theirs and its reply are left out until a pull overwrites them, and `OfflineWindow.ReplyMatchesIff` says when they agree all the same.
- Replica.ClientDb.SyncLive: the server stands still during the pull; `PullRuns` and `OfflineRuns` treat a server that moves.
- PullConverge.CutsConverge: takes rows of log items to be of this vault; items do not change vaults.
- ConflictWrites.RefusedEditIsKeptIff: is about a payload that no other queued change and no earlier conflict row carries.
- PushCursor.AcceptedSyncCatchesUp: takes every queued item to have its row in the cache, as the local item services leave it, and agreed numbers to be numbers of the log, which `OfflineRuns.NextKeepsInv` keeps.
- Replica.ClientDb.Sync: the changes of a shared vault are taken as already sealed for the cache; a change whose sealing fails is dropped before any write, as `CacheRuns.ApplySharedPull` says.
- CacheRuns.RunsKeepVersions: takes acknowledgements that are not behind the cache and new ids that are new.
- OfflineEdits.EditIs: an event stands for a call of the local services that gets through; their own refusals (a path in use, a deleted item, a payload too large), the history they write and `restore_item` are not modelled.
- History.MergeIsExact: entries are confirmed, as both callers pass them.
- RowVersion.NoLostUpdate: row versions are unbounded integers; the 64-bit limit of the column is not modelled.
- The wipe after a server reset (crates/zann-client/src/sync.rs:115-121), the reset of a cursor, HTTP, OIDC, tokens and the callback listener.
- The bootstrap branch of the shared pull on the server (crates/zann-server/src/domains/sync/service.rs:361-488).
- Log entries that become visible out of the order of their numbers; a pull between two such commits could pass over one.
- The SQL engine beyond the primary keys, the path index of the item cache and the orders used; full-text search; migrations.
- The local item services beyond what they do to rows and queue, and the paging.
- History rows of a merged storage, which only a foreign key removes.
- JSON rendering of the folder tree and the sorted list of flat paths; the desktop shell's children are an ordered set, the web tree's lists are in the order of `FolderTreeWeb.ListsAreInOrder`.
- The reachability probe of the desktop scheduler; what it finds is an event. Error texts and the "personal locked" map.
- Server identities beyond their base32 form: the hash and the parsing of keys.
- User interface, configuration file format, enum conversions, logging.
