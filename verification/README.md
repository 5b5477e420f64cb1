# TutaBridge model

TutaBridge keeps a local copy of a Tuta mailbox current from a replayable event log and serves it over IMAP. This
project models its protocol, codec, search, resource and supervision code in Dafny and proves what that code keeps.
Verify it with `dafny verify dfyconfig.toml`.

## What is modelled

**Replication.** `MailStore` and `LocalStore` are classes like the originals: the folder map in memory, and the disk
tables and body files. `EventHandler` applies batches to them in place. `Contents` says in full what each operation
and each batch makes of entries, rows, bodies, UID counters and issued UIDs, and every method is proved equal to it.
`ReplicaSpec` sees a replica as the set of (folder, mail) pairs in memory, the folder of each row, and the body files;
`BatchRefinement` proves that the full contents, seen that way, change as `ReplicaSpec` says. `EventBus` is the step
machine of the log, the full sync's listing, the socket, the channel, the cursor and crashes; `StartupGate` the
interleaving of the syncer with the handler. On top of these:

- `Reordering`, `Resolution` and `Moves` say what one batch means, when the handler's order is the wire's order, and
  what a move keeps of a mail;
- `Convergence`, `Replication` and `Redelivery` say which histories of batches end in the membership of a single pass,
  through reconnects and restarts, and on a server that has moved on in the meantime;
- `Agreement` and `StartupGate` say when memory and disk describe the same map, so that a restart rebuilds it;
  `LosingBatches` holds batches that lose a mail or one of its folders;
- `Arrivals`, `Updates` and `Bodies` say what becomes of one mail's entries, row and body file; `CursorLink` ties the
  cursor maps of the program to the protocol's cursor;
- `Uids`, `SyncUids` and `BatchUids` say what IMAP UIDs keep over every run of the handler, `UidRestart` and
  `DiskSteps` which batches and runs keep them across a restart.

**Codecs.** `Base64` over any injective alphabet, `Utf7` (section 5.1.3 of RFC 3501) and `MailSetEntryId`; `WireBits`
holds them against the tables and bit strings of their standards.

**SEARCH** (section 6.4.4 of RFC 3501). `SearchTokens` and `SearchParser` hold the tokenizer and parser loops and
their specification on text and token suffixes; `SearchTexts` says what each piece of text is read as, malformed text
included; `SearchPrint` writes keys as parenthesised text and proves that they are read back; `SearchKeys` evaluates
keys; `Calendar` holds the date arithmetic.

**Resources.** `BodyCache` refines a recency list; `Governor` is the rate governor with requests interleaving step by
step over a clock.

**Trees and batches.** `FolderForest` and `FolderLists` build and read the folder tree, `FolderOrder` says in which
order it is listed; `DeleteBatches` and `Attachments` group requests and check answers.

**Supervision.** `Supervisor` is one supervisor's loop and policy; `SharedVolume` any number of them on one volume lock.

## Where the code does less than one might hope

The code is modelled as it is. Where an expected property fails, a lemma gives a concrete case and another the exact
condition.

- A DELETE followed by a CREATE of the same (mail, folder) pair in one batch leaves the mail absent
  (`LosingBatches.RecreatedMailIsLost`, on operations `Reordering.ReorderingFails`; exact condition in
  `ReorderingPreservesIff` and `Resolution.HandlerFollowsWireIff`).
- A group without a cursor loses batches when the full sync lists its folders before the socket first opens, when it
  reconnects before the socket delivered everything, and when the process restarts with batches still queued while
  another group's cursor keeps the full sync from running again (`EventBus.ListedBeforeConnectSkips`,
  `ReconnectWithoutCursorSkips`, `RestartWithoutCursorSkips`; exact condition, for every step, in `NoGapIff`).
- A reconnect that re-sends part of what is still queued, and drops, can leave one old batch to be applied last:
  membership then differs for good although the cursor is sound (`Replication.HalfDeliveredReplayDiverges`). A history
  converges exactly when every batch occurs and the last occurrences come in log order (`Convergence.ConvergesIff`);
  a reconnect keeps the stream free of skips exactly when it does not resume beyond what is queued
  (`EventBus.OrderlyIff`), for which a drained channel is enough (`EventBus.DrainedReconnectIsOrderly`).
- The row upsert keeps the old UID when a mail moves, so a restart can show one UID twice in a folder
  (`UidRestart.MoveThenRestartDuplicates`). Loading shows distinct UIDs exactly when the folder's rows carry them
  (`LoadedDistinctIff`), and an upsert keeps that exactly when no other row of the folder has the kept UID
  (`UpsertDistinctIff`). The events of a batch keep memory and rows on the same UIDs exactly when the batch takes away
  every entry that its CREATEs leave without a matching row (`DiskSteps.EventsOnDiskIff`, for a move
  `DiskSteps.MovedInStepIff`); runs that create no mail that has a row keep every UID (`RestartKeepsUids`).
- A batch that leaves a mail in two folders splits memory from disk, which has room for one folder per mail: a CREATE
  of a mail whose old folder is not cleared (`LosingBatches.RestartLosesSecondFolder`), or two CREATEs of a new mail
  (`LosingBatches.TwoCreatesLoseOne`). A restart right after the events finds the same mails exactly when each mail that
  the batch places and does not erase is deleted from all its folders, or from all but the target of its last CREATE
  (`Agreement.BatchAgreesIff`, `Agreement.RestartRestoresIff`).
- A request that has read the suspension gate just before a deadline is armed still goes past it
  (`GovernorModel.EarlyReaderReachable`; exact condition in `HoldsBackIff`).
- An unknown SEARCH keyword matches everything, so under NOT it hides everything, against the rule stated at the head
  of `search.rs` (`SearchPrint.UnknownCriterion`; exactly when a widened criterion hides or shows a message in
  `SearchKeys.WideningIff`).
- A star in a SEARCH set is read as "no upper end", not as the largest number in use: `*` alone selects everything,
  and `9:*` nothing when the largest number is 8 (`SearchArguments.StarMisread`). `StarReadIff` says exactly which
  parts are read as section 9 of RFC 3501 has it.
- Modified UTF-7 decoding accepts more than encoding produces (`Utf7.DecodeAcceptsMore`; exactly which texts in
  `Utf7.EncodesBackIff`).
- UIDs are cut to 32 bits: two counter values share one exactly when they are a multiple of 2^32 apart
  (`LocalStoreModel.UidsCollideIff`).
- The header-less throttle counter wraps at 32 bits, after which waits start over (`GovernorModel.CountIsSinceReset`;
  exactly which waits that shortens in `GovernorModel.WrapKeepsWaitIff`).
- Building the folder tree does not end on a list in which a chain of parents meets a folder twice, for
  instance an inbox inside a folder of its own (`FolderForest.InboxInsideItself`; exact condition in `FiniteIff`).

## Model

| member | source | states |
|---|---|---|
| EventHandler.BucketUpdates | crates/bridge/src/event_handler.rs:146-169 | every event of the mail application goes, by type and operation, into the entry creates, entry deletes, Mail creates or Mail events, each in wire order; folder changes are noted |
| EventHandler.PredecryptMailCreates | crates/bridge/src/event_handler.rs:552-588 | the pool holds, for each id, the last Mail CREATE whose payload decrypts, with its details when the blob decrypts too, and nothing else |
| EventHandler.AssignUidAndUpsert | crates/bridge/src/event_handler.rs:634-664 | files the entry with its mail fields under the folder's next UID; its row names folder and mail and keeps the UID of an earlier row; the counter moves by one; other folders, rows and bodies stay |
| EventHandler.ApplyMailSetEntryCreate | crates/bridge/src/event_handler.rs:299-435 | clone the entry found in any folder, or use the pooled mail and its body, or load one mail: entries, rows, bodies and UIDs after it are the specified ones; the pool loses the mail exactly when it is used; a full sync is asked for exactly when the entry names no mail or folder that is known, or the mail can neither be found nor loaded |
| EventHandler.ApplyMailSetEntryDelete | crates/bridge/src/event_handler.rs:456-498 | the mail leaves that folder, the others keep their entries and order; row and body file go exactly when no folder holds it any more |
| EventHandler.ApplyMailEvent | crates/bridge/src/event_handler.rs:500-544 | an UPDATE that the payload, or else the server, resolves puts the new metadata into the first entry of the mail in every folder and into the row, UIDs and body state untouched; a DELETE and an unresolvable UPDATE erase the mail everywhere; all else stays |
| EventHandler.RefreshFolderList | crates/bridge/src/event_handler.rs:271-297 | a fetched list replaces the known one and drops vanished folders with exactly the rows filed in them and the bodies of those; a failed fetch changes nothing |
| EventHandler.ApplyBatch | crates/bridge/src/event_handler.rs:180-269 | one batch takes memory, disk, UID counters and issued UIDs to exactly the specified contents, for some truthful answer of each search and some order of the fallback folders |
| EventHandler.Process | crates/bridge/src/event_handler.rs:83-116 | a batch is applied in full before the cursor on disk moves; in memory and on disk its group's cursor becomes its id and every other cursor stays; other messages change nothing |
| EventHandler.RunEventHandler | crates/bridge/src/event_handler.rs:46-81 | over every queue: the states form a trace in which each message takes the full contents to their specified successor; in memory and on disk the cursor of each group with a batch in the queue is the id of its latest one, all others are as before |
| CursorLink.CursorNamesWhatIsApplied | crates/tuta/src/event_bus.rs:432-438 | program and protocol in step, over every run without a gap: a connection asks for exactly what follows the batch named by the group's cursor, or for nothing of the past without one, and every batch up to the one named, in memory or on disk, that the listing does not cover has been applied |
| BatchRefinement.BatchView | crates/bridge/src/event_handler.rs:180-269 | seen as membership, row folders and bodies, the full contents after a batch are the set-level replica after it, and the fallback order walks the folders that asked for a sync |
| BatchRefinement.BatchKeyed | crates/bridge/src/event_handler.rs:180-269 | rows stay under their own mail ids when UPDATE payloads describe the mail they name |
| Updates.UpdateReachesEveryFolder | crates/bridge/src/event_handler.rs:500-544 | in any batch whose last event of a mail is an UPDATE: after the events every folder that shows the mail shows it with the new metadata, under its UID and with its body state, and so does its row |
| Updates.RunOnce | crates/bridge/src/event_handler.rs:46-81 | over every run, when the server lists no mail twice, no folder shows a mail twice |
| Arrivals.MailArrivesInBatch | crates/bridge/src/event_handler.rs:341-396 | a new mail whose own CREATE rides in the batch is shown as that CREATE has it, in its folder alone; its body counts as loaded and is rendered to disk exactly when its details came along and it has no attachments |
| Arrivals.MailArrivesFromServer | crates/bridge/src/event_handler.rs:398-435 | a new mail without a readable CREATE of its own is asked for under the list and id that the entry's payload names, and shown without a body |
| Bodies.NoOrphanBodies | crates/bridge/src/event_handler.rs:46-81 | over every run, each body file belongs to a row |
| Bodies.SyncedFollows | crates/bridge/src/sync.rs:742-852 | after a full sync exactly the body files of the rows it dropped are gone |
| Contents.CreateFilesSource | crates/bridge/src/event_handler.rs:325-435 | a CREATE files the entry found, the pooled mail or the loaded mail in the target folder, or leaves the contents alone; the pool only shrinks |
| MailStoreModel.MailStore.SetFolder | crates/bridge/src/sync.rs:183-189 | replaces one folder and nothing else |
| MailStoreModel.MailStore.FindMailAnywhere | crates/bridge/src/sync.rs:222-238 | finds an entry exactly when some folder holds the mail |
| MailStoreModel.MailStore.IsMailAnywhere | crates/bridge/src/sync.rs:242-254 | true exactly when some folder holds the mail |
| MailStoreModel.MailStore.RemoveMailFromFolder | crates/bridge/src/sync.rs:259-279 | removes the mail from that folder only and reports whether it was there; other folders stay; the generation moves only on a change |
| MailStoreModel.WithoutConcat | crates/bridge/src/sync.rs:259-279 | what is not removed keeps its order: every part of a folder's list loses the mail on its own |
| MailStoreModel.MailStore.UpsertMailInFolder | crates/bridge/src/sync.rs:284-304 | replaces an entry of the same mail in place, or appends; other folders stay |
| MailStoreModel.UpsertSeq | crates/bridge/src/sync.rs:284-304 | the result is the list with one entry replaced, or with the new entry at its end; it holds exactly the old ids and the new one |
| MailStoreModel.MailStore.RefreshMailInPlace | crates/bridge/src/sync.rs:193-216 | in every folder the first entry of the mail, and no other, has the new metadata, with its UID and body state; the generation moves exactly when some folder shows the mail |
| MailStoreModel.MailStore.PruneUnknownFolders | crates/bridge/src/sync.rs:309-328 | drops exactly the folders not in the list and returns them; the others keep their entries |
| MailStoreModel.MailStore.RemoveMailEverywhere | crates/bridge/src/sync.rs:331-352 | the mail is gone from every folder, all other entries stay in order |
| LocalStoreModel.LocalStore.UpsertMailMetadata | crates/bridge/src/store.rs:234-264 | a conflicting row is re-filed with all its new columns but keeps its old UID; other rows stay |
| LocalStoreModel.LocalStore.UpsertMailMetadataBatch | crates/bridge/src/store.rs:266-302 | row by row like the single form, but a body known to be there stays known |
| LocalStoreModel.LocalStore.AllocateFolderUids | crates/bridge/src/store.rs:308-335 | consecutive UIDs, cut to 32 bits, in the order given; the counter advances by their number |
| LocalStoreModel.UidsFor | crates/bridge/src/store.rs:308-335 | every requested mail, and no other, gets the UID of a place it has in the request |
| LocalStoreModel.UidsCollideIff | crates/bridge/src/store.rs:308-335 | the cut to 32 bits gives two counter values one UID exactly when they are a multiple of 2^32 apart |
| LocalStoreModel.LocalStore.DeleteMailsNotIn | crates/bridge/src/store.rs:337-373 | drops and returns exactly the folder's rows outside the given set |
| LocalStoreModel.LocalStore.DeleteFolderMails | crates/bridge/src/store.rs:589-600 | drops and returns exactly the folder's rows |
| LocalStoreModel.LocalStore.DeleteMail | crates/bridge/src/store.rs:604-612 | row and body file of the mail go together |
| FolderSync.SyncFolder | crates/bridge/src/sync.rs:742-852 | a full sync makes memory, counter, rows and body files what the next two rows say; a failed listing changes nothing |
| FolderSync.SyncsMemory | crates/bridge/src/sync.rs:752-815 | the folder shows the listing, entry by entry; known mails keep UID and body state, new ones have no body; with a duplicate-free listing below 2^32 the new mails take exactly the UIDs up to the counter's new value, the last listed, oldest one the lowest; other folders stay |
| FolderSync.SyncsDisk | crates/bridge/src/sync.rs:817-848 | listed mails have a row in this folder with the new metadata, keeping the UID and details flag of an earlier row; exactly the folder's unlisted rows are gone, and exactly their body files |
| FolderSync.RelistRefines | crates/bridge/src/sync.rs:742-852 | seen as a membership change, a full sync re-lists one folder and re-files the listed mails' rows |
| SyncUids.SyncKeeps | crates/bridge/src/sync.rs:752-815 | with a duplicate-free listing a full sync keeps UIDs distinct, below the counter, and recorded as given to the very mails that show them |
| SyncUids.SyncKeepsKnown | crates/bridge/src/sync.rs:784-812 | UID and body state of a mail that was known stay as they were |
| Uids.KeepsTransitive | crates/bridge/src/store.rs:304-335 | the UID guarantees of single steps add up over a run |
| Uids.AssignKeeps | crates/bridge/src/event_handler.rs:634-664 | filing a mail under a freshly issued UID keeps every guarantee, the mail shown being the one recorded |
| Uids.PruneKeeps | crates/bridge/src/sync.rs:309-328 | dropping folders keeps them |
| Uids.NeverSharedOrReused | crates/bridge/src/store.rs:304-335 | under these guarantees two mails never show one (folder, UID), at the same time or at different times |
| Uids.SessionStart | crates/bridge/src/sync.rs:681-736 | any memory with distinct UIDs below the counters can start a session |
| BatchUids.BatchKeeps | crates/bridge/src/event_handler.rs:180-269 | one batch of the handler keeps the UID guarantees, for a server that returns the mail asked for and lists no mail twice |
| BatchUids.RunKeeps | crates/bridge/src/event_handler.rs:46-81 | so does every run of messages |
| BatchUids.UidNeverReused | crates/bridge/src/event_handler.rs:46-81 | in one folder a UID never passes from one mail to another between any two times of a run |
| UidRestart.LoadedDistinctIff | crates/bridge/src/sync.rs:681-736 | a loaded folder shows distinct UIDs exactly when its rows carry distinct UIDs |
| UidRestart.UpsertDistinctIff | crates/bridge/src/store.rs:240-248 | the rows of a folder still carry distinct UIDs after an upsert exactly when no other row has the UID that the upserted row keeps |
| DiskSteps.EventsOnDiskIff | crates/bridge/src/event_handler.rs:180-249 | for every batch: after its events every entry is backed by a row with its folder and UID and every row is shown, exactly when every entry that the CREATEs leave without such a row is deleted or erased by the batch |
| DiskSteps.MovedInStepIff | crates/bridge/src/event_handler.rs:328-338 | a moved mail matches its row exactly when the batch deletes it from every other folder and the UID it gets happens to be the one its row keeps |
| UidRestart.BatchOnDisk | crates/bridge/src/event_handler.rs:180-269 | a batch that creates only mails without a row leaves every entry backed by a row with its folder and UID, and every row shown |
| UidRestart.RunOnDisk | crates/bridge/src/event_handler.rs:46-81 | so does every run of such batches, full syncs and refreshes |
| UidRestart.RestartKeepsUids | crates/bridge/src/sync.rs:681-736 | a restart at any time of such a run shows every loaded folder with the same mails under the same, distinct UIDs |
| UidRestart.MoveThenRestartDuplicates | crates/bridge/src/store.rs:240-248 | one move and a restart can show the same UID twice in a folder |
| Refinement.PlaceRefines | crates/bridge/src/event_handler.rs:634-664 | the in-memory upsert and the row upsert together are one placement |
| Refinement.EraseRefines | crates/bridge/src/event_handler.rs:507-512 | erasing in memory and on disk removes the mail from the whole map |
| Reordering.ReorderingPreservesIff | crates/bridge/src/event_handler.rs:118-129 | creates, deletes, mail events: same membership as wire order, from any start, exactly when no pair is removed and then re-created last |
| Reordering.ReorderingFails | crates/bridge/src/event_handler.rs:220-242 | a DELETE before a CREATE of the same pair ends with the mail absent |
| LosingBatches.RecreatedMailIsLost | crates/bridge/src/event_handler.rs:220-242 | a batch of exactly these two events for a mail in its folder: read in wire order the mail stays there, the handler loses it |
| Resolution.BatchIsEffect | crates/bridge/src/event_handler.rs:180-269 | with every CREATE resolved no folder is re-listed, and membership is restricted, extended, reduced as the batch says |
| Resolution.HandlerFollowsWireIff | crates/bridge/src/event_handler.rs:220-249 | the handler itself agrees with the wire order under exactly that condition |
| Moves.MoveKeepsTheMail | crates/bridge/src/event_handler.rs:328-338 | in any batch with one CREATE of a cached mail in a folder new to it: the target shows an entry the mail had, metadata and body state included, under a new UID; folders the batch deletes it from lose it, others keep it; the row is re-filed with the same mail; the body file stays, whatever the server would answer |
| Convergence.ConvergesIff | crates/tuta/src/event_bus.rs:418-440 | a history gives the membership of one pass, for every log and start, exactly when every batch occurs and the last occurrences come in log order |
| Convergence.GaplessEndsInOrder | crates/tuta/src/event_bus.rs:418-440 | a history without skips that is back at its newest batch is of that kind |
| Convergence.CaughtUp | crates/tuta/src/event_bus.rs:418-440 | its membership is therefore that of one pass over the log so far |
| Convergence.SuffixReplayConverges | crates/bridge/src/event_handler.rs:180-269 | replaying any suffix after a full pass changes no membership when each replayed batch puts back and keeps what finally stays, and files and removes nothing else |
| Convergence.MovingServerConverges | crates/tuta/src/event_bus.rs:418-440 | any history in which every batch occurs and the last occurrences come in log order ends in the membership of one pass, although each application may file less, or re-list folders, against whatever later state the server then shows |
| Convergence.ServerShows | crates/bridge/src/sync.rs:742-852 | every state of the server's own log that includes the batch is such a state |
| Convergence.SkippingAheadDiverges | crates/tuta/src/event_bus.rs:418-440 | a history that replays one old batch and skips ahead need not converge |
| EventBus.CursorSound | crates/bridge/src/event_handler.rs:101-115 | in every run of append, list, connect, deliver, drop, apply, save and crash, with or without a new full sync, that opens no gap: everything logged since the listing and below the live or the saved cursor has been applied |
| EventBus.NoGapIff | crates/tuta/src/event_bus.rs:432-438 | a step of a sound state loses nothing exactly when it is no opening of the socket without a cursor, behind the listing and behind where the socket stood, and no crash without a saved cursor that drops batches which neither a new full sync nor the socket brings back |
| EventBus.ListedBeforeConnectSkips | crates/bridge/src/bridge.rs:409-430 | a run in which the full sync lists before the socket first opens and a batch logged in between is lost for good |
| EventBus.ReconnectWithoutCursorSkips | crates/tuta/src/event_bus.rs:432-438 | a run in which a reconnect before the first cursor loses a batch for good |
| EventBus.RestartWithoutCursorSkips | crates/bridge/src/sync.rs:455-463 | a run in which a restart before the group's first cursor, without a new full sync, loses a queued batch for good |
| EventBus.HistoryGapless | crates/tuta/src/event_bus.rs:266-391 | when no reconnect resumes beyond what is queued, batches are applied without skips, from no later than where the listing ends |
| EventBus.OrderlyIff | crates/tuta/src/event_bus.rs:432-438 | what a reconnect delivers first follows on the stream exactly when it does not resume beyond what is queued |
| EventBus.DrainedReconnectIsOrderly | crates/tuta/src/event_bus.rs:432-438 | a reconnect with a drained channel is of that kind |
| Replication.ReplicaConverges | crates/bridge/src/event_handler.rs:180-269 | over every such protocol run, with memory rebuilt from the rows at every restart, memory at the newest applied batch lists what one pass over the log lists, when the batches up to the latest restart leave each mail they place in one folder at most, that of its last CREATE |
| LosingBatches.RestartLosesSecondFolder | crates/bridge/src/event_handler.rs:328-338 | a batch that files a cached mail in a second folder and a restart after it: one pass lists both folders, memory only the second |
| LosingBatches.TwoCreatesLoseOne | crates/bridge/src/event_handler.rs:325-435 | two CREATEs of a mail that was nowhere, in one batch, and a restart: one pass lists both folders, memory only that of the last CREATE |
| Replication.SuffixChangesNothing | crates/tuta/src/event_bus.rs:432-438 | applying a log and then any suffix of it again changes nothing |
| Replication.HalfDeliveredReplayDiverges | crates/tuta/src/event_bus.rs:266-391 | a run with a half-delivered replay after which a removed mail is back for good, although the cursor is sound |
| Redelivery.EventsAreEffectNow | crates/bridge/src/event_handler.rs:180-269 | on any server, the events of a batch restrict, extend by exactly the pairs its CREATEs manage to place, and reduce |
| Redelivery.HandlerRepeats | crates/bridge/src/event_handler.rs:180-269 | applied again on a server that has moved on, a batch puts back and keeps what finally stays, and files and removes nothing else |
| Redelivery.RedeliveryConverges | crates/bridge/src/event_handler.rs:180-269 | after one pass of the handler over a log, any suffix delivered again changes no membership, with folders gone, mails deleted since and fallback syncs on the way |
| Redelivery.DeliveriesConverge | crates/bridge/src/event_handler.rs:180-269 | the same for the handler with any number of reconnects: after any applications in which every batch occurs and the last ones come in log order, on a server that moves on between any two of them, memory lists what one pass lists |
| Redelivery.CarefulRunConverges | crates/tuta/src/event_bus.rs:266-391 | so does every protocol run that never resumes beyond what is queued, back at its newest batch |
| Agreement.BatchAgreesIff | crates/bridge/src/event_handler.rs:220-249 | for every batch: after its events disk and memory still describe the same map exactly when each mail placed and not erased is deleted from all of its folders, or from all but the target of its last CREATE |
| Agreement.MoveShapedAgreesIff | crates/bridge/src/event_handler.rs:220-249 | with one CREATE per mail: exactly when every CREATE is a first placement or a move whose source the batch deletes |
| Agreement.RelistAgreesIff | crates/bridge/src/sync.rs:742-852 | a full sync keeps agreement exactly when the listing names no mail shown in another folder |
| Agreement.RefreshAgrees | crates/bridge/src/event_handler.rs:271-297 | a folder-list refresh keeps agreement |
| Agreement.ReloadRestores | crates/bridge/src/sync.rs:681-736 | when disk and memory agree, reloading the known folders rebuilds the membership |
| Agreement.RestartRestoresIff | crates/bridge/src/sync.rs:435-444 | for every batch: a restart right after its events shows the same mails in the same folders exactly under that condition |
| Agreement.CrashRestartAgrees | crates/bridge/src/event_handler.rs:180-269 | so a crash between any two batches of a run whose batches leave each mail they place in one folder at most, with consistent listings, loses nothing |
| StartupGate.LoadCachedFolder | crates/bridge/src/sync.rs:681-736 | the folder shows exactly one entry per row, newest first, with its mail and UID, its body being available where a file exists; exactly those rows are marked as having details |
| StartupGate.LoadCachedFolders | crates/bridge/src/sync.rs:435-444 | after loading, memory has exactly the listed folders, each with exactly the entries of its rows, newest first; the rows of listed folders that have a body file are marked, no others change |
| StartupGate.LoadAgreesIff | crates/bridge/src/sync.rs:435-444 | memory then agrees with disk exactly when every row names a listed folder |
| StartupGate.NoReplacementAfterAnEvent | crates/bridge/src/event_handler.rs:62-69 | in every interleaving of loading, full sync, signal or silent end with events: no folder is replaced after the first event, and memory is the events applied to what the syncer left, which after a signalled cache load is the disk's own placement |
| StartupGate.StartsGated | crates/bridge/src/sync.rs:494-498 | every start satisfies the invariant behind it |
| StartupGate.UngatedLosesAnEvent | crates/bridge/src/event_handler.rs:56-61 | without the wait an erased mail reappears in memory |
| Base64.DecodeEncode | crates/bridge/src/imap/utf7.rs:10-23 | decoding inverts encoding for every injective 64-symbol alphabet |
| Base64.EncodeDecode | crates/tuta/src/mail_set_entry_id.rs:100-104 | only canonical texts are accepted: encoding inverts decoding |
| Base64.AlphabetsValid | crates/bridge/src/imap/utf7.rs:10-23 | the three alphabets in use are injective |
| WireBits.AlphabetTables | crates/bridge/src/imap/utf7.rs:17-23 | the symbols of the three alphabets, in order |
| WireBits.PackKeepsBits | crates/tuta/src/mail_set_entry_id.rs:75-93 | base64 carries exactly the bits of the bytes, six to a symbol, with fewer than six zeros behind them |
| Utf7.Encode | crates/bridge/src/imap/utf7.rs:31-62 | the loop with its pending units produces the specified wire text |
| Utf7.Decode | crates/bridge/src/imap/utf7.rs:66-99 | the byte loop accepts exactly the texts the specification reads, with that value |
| Utf7.RoundTrip | crates/bridge/src/imap/utf7.rs:31-99 | every name's wire text is printable ASCII and decodes to the name |
| Utf7.EncodeInjective | crates/bridge/src/imap/utf7.rs:31-62 | two names never share a wire text |
| Utf7.DecodeAcceptsMore | crates/bridge/src/imap/utf7.rs:66-99 | decoding also accepts texts that encoding never produces |
| Utf7.EncodesBackIff | crates/bridge/src/imap/utf7.rs:31-99 | encoding gives an accepted text back exactly when its direct characters are printable, its chunks hold only what must be shifted, and no two chunks meet |
| WireBits.ShiftedText | crates/bridge/src/imap/utf7.rs:31-62 | a run of other than printable characters is written between `&` and `-`, in symbols of the RFC 3501 table that carry the bits of its UTF-16 units, highest byte first |
| WireBits.UnitsOfCharacter | crates/bridge/src/imap/utf7.rs:55-57 | UTF-16: one unit, or the two surrogates that hold what is beyond 16 bits |
| WireBits.DirectText | crates/bridge/src/imap/utf7.rs:48-60 | printable characters stand for themselves, `&` is written `&-` |
| WireBits.DecodedText | crates/bridge/src/imap/utf7.rs:66-99 | decoding piece by piece: between `&` and the next `-` stands what encodes to it, or the text is refused, as it is without that `-` |
| MailSetEntryId.Construct | crates/tuta/src/mail_set_entry_id.rs:75-93 | the filled buffer is the shifted, wrapped date followed by the mail id |
| MailSetEntryId.DeconstructConstruct | crates/tuta/src/mail_set_entry_id.rs:75-116 | decoding gives the mail id back and the date reduced to 32 bits of 1024 ms |
| MailSetEntryId.DateSurvivesIff | crates/tuta/src/mail_set_entry_id.rs:75-116 | the date survives, rounded down to 1024 ms, exactly below 2^42 ms |
| MailSetEntryId.ConstructDeconstruct | crates/tuta/src/mail_set_entry_id.rs:75-116 | constructing from an accepted id's parts gives the same id text |
| WireBits.EntryIdBits | crates/tuta/src/mail_set_entry_id.rs:75-93 | the id is 32 bits of the date in units of 1024 ms, highest first, followed by the 72 bits that the mail id spells |
| WireBits.EntryIdIff | crates/tuta/src/mail_set_entry_id.rs:100-116 | exactly the url-safe texts of thirteen bytes are entry ids |
| BodyCacheModel.BodyCache.Insert | crates/bridge/src/body_cache.rs:76-107 | tick, order and entry maps stay a recency list with an exact byte total; insertion replaces, appends and evicts |
| BodyCacheModel.BodyCache.EvictCold | crates/bridge/src/body_cache.rs:91-106 | the eviction loop removes what the list-level eviction removes and never the newest entry |
| BodyCacheModel.EvictDropsShortestPrefix | crates/bridge/src/body_cache.rs:91-106 | what goes is the shortest cold prefix that brings the cache within budget or down to one entry |
| BodyCacheModel.InsertBounds | crates/bridge/src/body_cache.rs:76-107 | the new entry stays, warmest, and the cache is within budget or holds that entry alone |
| BodyCacheModel.InsertReplaces | crates/bridge/src/body_cache.rs:76-107 | an insertion takes the place of the item with its id, at the warm end, all others in order; then the shortest cold prefix goes that the budget asks for |
| BodyCacheModel.TouchMovesToEnd | crates/bridge/src/body_cache.rs:124-134 | a hit returns the item's entry and moves it, unchanged, to the warm end; a miss changes nothing |
| BodyCacheModel.BodyCache.UpdateRfc2822 | crates/bridge/src/body_cache.rs:112-119 | a hit replaces the text, keeps the details and re-accounts; a miss changes nothing |
| BodyCacheModel.BodyCache.Cached | crates/bridge/src/body_cache.rs:124-134 | a hit returns the entry and makes it the warmest, a miss changes nothing |
| BodyCacheModel.BodyCache.Get | crates/bridge/src/body_cache.rs:139-160 | a hit is served from memory, a body on disk is cached and returned, otherwise nothing |
| Calendar.DayNumberSteps | crates/bridge/src/imap/search.rs:537-544 | 1970-01-01 is day 0 and each next Gregorian date one more, in every year |
| Calendar.DayNumberOrder | crates/bridge/src/imap/search.rs:537-544 | day numbers order dates as the calendar does and tell them apart |
| Calendar.DateOfInverse | crates/bridge/src/imap/search.rs:537-544 | every day since the epoch has a date with that number |
| SearchKeys.CollectBodyTerms | crates/bridge/src/imap/search.rs:154-173 | the terms of a key, each once, in ascending order |
| SearchKeys.TermsIff | crates/bridge/src/imap/search.rs:154-173 | exactly the arguments of BODY and TEXT, however deep in the key they stand |
| SearchKeys.TermsFrame | crates/bridge/src/imap/search.rs:154-173 | contexts that agree on the collected terms give the same answer on every message |
| SearchKeys.WideningIsMonotone | crates/bridge/src/imap/search.rs:15-17 | widening a criterion under an even number of NOTs never hides a message, under an odd number it never shows a new one |
| SearchKeys.WideningIff | crates/bridge/src/imap/search.rs:15-17 | a wider criterion hides, or shows, a message exactly when it newly matches, nothing around it decides the answer, and the number of NOTs is odd, or even |
| SearchKeys.FlagKeysMatchFetch | crates/bridge/src/imap/search.rs:211-223 | searching by a flag, or its absence, finds exactly the messages that FETCH shows with it, or without it |
| SearchKeys.NewMatchesFetch | crates/bridge/src/imap/search.rs:206-222 | NEW is RECENT and UNSEEN; ALL matches everything |
| SearchKeys.NoKeywords | crates/bridge/src/imap/search.rs:224-225 | no message has a keyword |
| SearchKeys.TextKeysMatchFields | crates/bridge/src/imap/search.rs:227-233 | each text key looks at its own field, BODY at the index, TEXT at index and header block |
| SearchKeys.HeaderKeyMatchesLine | crates/bridge/src/imap/search.rs:234 | HEADER looks for its line |
| SearchKeys.SizeKeysAreStrict | crates/bridge/src/imap/search.rs:243-244 | LARGER and SMALLER are strict, exclude each other and both miss exactly the messages of that size |
| SearchKeys.NumberKeysMatchNumbers | crates/bridge/src/imap/search.rs:36-50 | UID selects by UID and a bare set by sequence number: between the ends in either order, or from the start on |
| SearchKeys.AndIsConjunction | crates/bridge/src/imap/search.rs:207 | AND matches when all its keys do |
| SearchKeys.OrAndNotAreBoolean | crates/bridge/src/imap/search.rs:208-209 | OR and NOT are the boolean connectives |
| SearchKeys.DateCriteria | crates/bridge/src/imap/search.rs:236-238 | BEFORE, ON and SINCE compare the calendar date, by whole days since 1970, on which the message was received |
| SearchKeys.SentDateCriteria | crates/bridge/src/imap/search.rs:239-241 | their SENT forms compare the date on which it was sent |
| SearchTokens.Tokenize | crates/bridge/src/imap/search.rs:265-311 | the character loop yields the specified tokens of any text |
| SearchTokens.TokensRender | crates/bridge/src/imap/search.rs:265-311 | tokenizing any written token list, strings quoted and escaped, gives the list back |
| SearchTexts.BlanksAndParens | crates/bridge/src/imap/search.rs:268-281 | blanks are skipped, parentheses are tokens |
| SearchTexts.AtomReaches | crates/bridge/src/imap/search.rs:298-307 | an atom runs up to a space, tab, parenthesis or quote, over line breaks |
| SearchTexts.ClosedString | crates/bridge/src/imap/search.rs:282-297 | a quoted string stands for its characters |
| SearchTexts.EscapedCharacter | crates/bridge/src/imap/search.rs:286-291 | a backslash is dropped and takes the next character along |
| SearchTexts.UnclosedString | crates/bridge/src/imap/search.rs:282-297 | the end of the text closes a string |
| SearchArguments.ParseSeqSet | crates/bridge/src/imap/search.rs:485-508 | the loop reads the set part by part, as the next rows say |
| SearchArguments.SetOfText | crates/bridge/src/imap/search.rs:479-508 | every 32-bit set of ranges is read back from its text |
| SearchArguments.SetReadsParts | crates/bridge/src/imap/search.rs:485-508 | any mix of parts, with unusable numbers, stars and missing ends: a number is selected exactly when one part is it, spans it in either order, or leaves that side open |
| SearchArguments.StarReadIff | crates/bridge/src/imap/search.rs:485-508 | exactly when a part selects, among the numbers in use, what RFC 3501 says |
| SearchArguments.StarMisread | crates/bridge/src/imap/search.rs:485-508 | two texts that are read otherwise |
| SearchArguments.ParseDecimal | crates/bridge/src/imap/search.rs:472-477 | a decimal text is read back below its limit |
| SearchTexts.NumbersRead | crates/bridge/src/imap/search.rs:472-477 | digits are read below the limit, with zeros and one plus sign allowed in front |
| SearchTexts.OthersAreNoNumbers | crates/bridge/src/imap/search.rs:472-477 | nothing else is a number |
| SearchArguments.ParseDateText | crates/bridge/src/imap/search.rs:511-534 | a written date is read as its day number |
| SearchTexts.DatesRead | crates/bridge/src/imap/search.rs:511-534 | a date is a day, a month's name and a year between two dashes, and nothing else is one |
| SearchTexts.MonthsOf1970 | crates/bridge/src/imap/search.rs:517-531 | the twelve names, by the days before each month |
| SearchParser.ParseKeyList | crates/bridge/src/imap/search.rs:331-347 | the loop returns the specified keys and stops where the specification stops |
| SearchParser.ParseKey | crates/bridge/src/imap/search.rs:361-373 | the same for one key, including the missing one |
| SearchParser.ParseAtomKey | crates/bridge/src/imap/search.rs:375-459 | the same for a keyword and its arguments |
| SearchTexts.FlagKeywords | crates/bridge/src/imap/search.rs:378-391 | the ten flag keywords, in any case |
| SearchTexts.OtherBareKeywords | crates/bridge/src/imap/search.rs:378-391 | ALL, RECENT, NEW and OLD |
| SearchTexts.ContentKeywords | crates/bridge/src/imap/search.rs:410-416 | SUBJECT, BODY and TEXT take one argument, empty when it is missing |
| SearchTexts.AddressKeywords | crates/bridge/src/imap/search.rs:411-414 | FROM, TO, CC and BCC likewise |
| SearchTexts.HeaderKeyword | crates/bridge/src/imap/search.rs:425-429 | HEADER takes a name and a value |
| SearchTexts.KeywordKeywords | crates/bridge/src/imap/search.rs:417-424 | KEYWORD and UNKEYWORD skip their argument |
| SearchTexts.DateKeywords | crates/bridge/src/imap/search.rs:431-433 | BEFORE, ON and SINCE take one date and restrict nothing without it |
| SearchTexts.SentDateKeywords | crates/bridge/src/imap/search.rs:434-436 | their SENT forms likewise |
| SearchTexts.SizeKeywords | crates/bridge/src/imap/search.rs:438-439 | LARGER and SMALLER take a 64-bit number and restrict nothing without it |
| SearchTexts.UidKeyword | crates/bridge/src/imap/search.rs:441-446 | UID takes a set and selects nothing without it |
| SearchTexts.OtherAtoms | crates/bridge/src/imap/search.rs:448-457 | an atom that is no keyword but a set selects by sequence number, any other restricts nothing |
| SearchTexts.ConnectiveKeywords | crates/bridge/src/imap/search.rs:393-401 | OR takes two keys, NOT one; a missing key is ALL |
| SearchTexts.CharsetIsSkipped | crates/bridge/src/imap/search.rs:403-408 | CHARSET and its argument are passed over |
| SearchTexts.StrayTokens | crates/bridge/src/imap/search.rs:331-373 | a quoted string in place of a key restricts nothing; a parenthesis closed too often is passed over |
| SearchTexts.KeysSideBySide | crates/bridge/src/imap/search.rs:322-328 | keys side by side or in a group must all match |
| SearchParser.AllTokensConsumed | crates/bridge/src/imap/search.rs:331-347 | whatever the tokens, the top level reads all of them |
| SearchParser.Parse | crates/bridge/src/imap/search.rs:314-319 | parsing terminates on every text with its specified meaning, at the end of the tokens |
| SearchPrint.PrintRead | crates/bridge/src/imap/search.rs:314-459 | the parenthesised text of any keys is read as those keys, groups of fewer than two dissolved |
| SearchPrint.PrintKeepsMeaning | crates/bridge/src/imap/search.rs:204-459 | written out and parsed again, any keys select the same messages |
| SearchPrint.UnknownCriterion | crates/bridge/src/imap/search.rs:448-457 | an unknown keyword restricts nothing, but under NOT it hides every message |
| GovernorModel.Governor.BackoffFor | crates/bridge/src/governed_client.rs:105-118 | the wait and the new counter are the specified ones |
| GovernorModel.Governor.SuspendUntil | crates/bridge/src/governed_client.rs:93-100 | the later of the two deadlines stays, and nothing else |
| GovernorModel.Governor.Note | crates/bridge/src/governed_client.rs:161-173 | a throttle yields its wait, a success resets the counter, anything else changes nothing |
| GovernorModel.OutcomeOf | crates/bridge/src/governed_client.rs:128-139 | exactly 429 and 503 are throttles, exactly 2xx are successes |
| GovernorModel.ThrottleCarriesDelay | crates/bridge/src/governed_client.rs:128-139 | a throttle carries the seconds that Retry-After, or without it Suspension-Time, gives between blanks; a Retry-After that is no number hides the other header |
| GovernorModel.DefaultBackoff | crates/bridge/src/governed_client.rs:112-117 | the capped shift is two seconds doubled n times, up to a minute |
| GovernorModel.CountIsSinceReset | crates/bridge/src/governed_client.rs:105-122 | the counter is the number of header-less throttles since the last reset, modulo 32 bits |
| GovernorModel.WrapKeepsWaitIff | crates/bridge/src/governed_client.rs:112-117 | the wrapped counter gives the wait of an unbounded one exactly when it has not wrapped or is back at five or more |
| GovernorModel.EscalatingBackoff | crates/bridge/src/governed_client.rs:105-118 | in every run the (n+1)-th header-less throttle since a reset waits min(60, 2·2^n) seconds, n modulo 32 bits |
| GovernorModel.ServerDelayIsKept | crates/bridge/src/governed_client.rs:105-111 | in every run a throttle with a delay waits that many seconds, but between two seconds and five minutes, and resets the count |
| GovernorModel.ThrottleSafety | crates/bridge/src/governed_client.rs:74-175 | in every interleaving four permits are held or free, none is lost; the gate shows the latest deadline armed; every deadline lies 2 s to 300 s after a moment at or after the throttle was handled; a request that read the gate after a deadline was armed passes no earlier than it |
| GovernorModel.SleepsUntilDeadline | crates/bridge/src/governed_client.rs:74-89 | a request that sleeps does so until the deadline it saw, unless it is dropped |
| GovernorModel.DeadlineMonotone | crates/bridge/src/governed_client.rs:93-100 | the deadline never moves back |
| GovernorModel.HoldsBackIff | crates/bridge/src/governed_client.rs:74-89 | an armed deadline holds back every request until it is over exactly when none stood between reading an earlier gate and deciding |
| GovernorModel.EarlyReaderReachable | crates/bridge/src/governed_client.rs:74-89 | a run of two requests in which one does and goes past |
| FolderForest.GroupByParent | crates/tuta/src/folder_system.rs:84-92 | children of each parent id, in load order |
| FolderForest.New | crates/tuta/src/folder_system.rs:82-124 | on every list without a cycle the loops build the specified trees and find the first imported set |
| FolderForest.MakeSubtree | crates/tuta/src/folder_system.rs:193-213 | on every such list the recursion ends and builds the subtree of the folder's chain |
| FolderForest.FiniteIff | crates/tuta/src/folder_system.rs:193-213 | chains of parents are no longer than the list, so that building ends, exactly when no chain meets a folder twice |
| FolderForest.InboxInsideItself | crates/tuta/src/folder_system.rs:193-213 | a list of two folders with different ids on which building does not end |
| FolderForest.TidyIsFinite | crates/tuta/src/folder_system.rs:193-213 | with unique ids and parentless system folders none does |
| FolderForest.OneChain | crates/tuta/src/folder_system.rs:173-179 | a folder has at most one chain |
| FolderForest.SortIsStable | crates/tuta/src/folder_system.rs:260-280 | siblings are in order and equals keep their load order |
| FolderOrder.ListingInOrder | crates/tuta/src/folder_system.rs:107-144 | the indented list has a folder before what lies in it, system folders in display order before the others, siblings by name, and as loaded when nothing else decides |
| FolderOrder.NameLeIff | crates/tuta/src/folder_system.rs:278-280 | names are ordered by their first different character, prefixes first |
| FolderLists.IndentedList | crates/tuta/src/folder_system.rs:139-144 | the pushing recursion lists system trees, then custom ones |
| FolderLists.ListingExact | crates/tuta/src/folder_system.rs:139-144 | exactly the folders whose chain reaches a root, each once, at level chain length minus one |
| FolderLists.PathIsChain | crates/tuta/src/folder_system.rs:173-190 | the path to a folder is its chain root first, empty without one, and the lookup by id finds the whole subtree of exactly those folders |
| DeleteBatches.Group | crates/tuta/src/mail.rs:183-196 | index table and seen set group the mails as specified |
| DeleteBatches.DeleteMails | crates/tuta/src/mail.rs:178-213 | requests are sent one after another up to the first refusal |
| DeleteBatches.SentPrefix | crates/tuta/src/mail.rs:197-212 | all are accepted exactly when each is; otherwise sending stops right after the first refusal and nowhere else |
| DeleteBatches.RequestsSound | crates/tuta/src/mail.rs:178-213 | requests of one list, 1 to 50 mails each, all but the last of a list full; together every distinct id exactly once, lists and mails in first-seen order |
| Attachments.GroupRequests | crates/tuta/src/mail.rs:360-370 | one request per list with all its elements, or an error exactly when a reference comes twice |
| Attachments.CheckAnswer | crates/tuta/src/mail.rs:377-389 | accepted exactly when every File has an id that was asked for and none comes twice; a refusal names a fault that is there |
| Attachments.LoadFiles | crates/tuta/src/mail.rs:360-397 | succeeds exactly when references are distinct and every list is answered completely with nothing else; an error names a fault that is there |
| Attachments.ResolveKeys | crates/tuta/src/mail.rs:399-437 | own key where there is one, else the bucket's key at the File's position, exactly when all are available; otherwise exactly the error of the first thing missing |
| Attachments.LoadData | crates/tuta/src/mail.rs:477-523 | exactly when every blob is sent and everything sent in its archive can be opened; an error other than an indeterminate one comes from a download |
| Attachments.JoinedConcat | crates/tuta/src/mail.rs:511-522 | the data is that of the blobs one after another, in the order of the File's list |
| Attachments.JoinedOne | crates/tuta/src/mail.rs:495-520 | a blob's data is what the key opens of the bytes sent under its id |
| Attachments.BlobsConcat | crates/tuta/src/mail.rs:490-495 | an archive is asked for its blobs in the order of the File's list |
| Attachments.LoadAttachments | crates/tuta/src/mail.rs:347-471 | all or nothing: one attachment per reference, in order, each opened with its own key |
| SupervisorModel.Supervise | src/service.rs:534-625 | the loop makes of every sequence of turns what the turn function says |
| SupervisorModel.TurnsSound | src/service.rs:534-625 | every history of a supervisor satisfies the rules below |
| SupervisorModel.CodesSay | src/service/policy.rs:37-48 | which exit code says what; all others are plain failures |
| SupervisorModel.SupervisorHistory | src/service/policy.rs:51-65 | no worker after an exit with 14, none while the fingerprint is the one of an exit with 13 that is the latest rejection; a wait lasts 10 s, but min(300, 10·2^k) s after a failure with 17 or a code without a meaning that follows k such failures; a line is logged exactly when the state changes or none was for 300 s |
| SupervisorModel.LaunchIff | src/service.rs:549-585 | a turn launches a worker exactly when it is not told to stop, gets the lock and no rejection stands against it |
| SupervisorModel.ExitIff | src/service.rs:549-612 | the state a supervisor gives up with, by what stopped it: request, lock, standing rejection or exit code |
| SupervisorModel.WaitIsCappedPower | src/service/policy.rs:59-65 | repeated capped doubling is the capped power |
| SupervisorModel.VersionStays | src/service/policy.rs:51-55 | once a worker exited with 14 that stays the latest rejection, and no launch is open |
| SharedVolume.OneWorker | src/service.rs:265-330 | with any number of supervisors starting, stopping and crashing at any point, at most one worker is alive, every history keeps the rules, and each rests until its delay is over |
| SharedVolume.OrphanKeepsLock | src/service.rs:444-461 | while a worker outlives its crashed supervisor, another supervisor finds the volume occupied |
| SharedVolume.LockFreeIff | src/service.rs:507-530 | a supervisor that looks for the lock gets it exactly when no worker is alive and no other supervisor stands between taking and releasing it |
| SharedVolume.RestsUntilDue | src/service.rs:614-627 | a supervisor that rests does so until its time, unless it is stopped or crashes |
| SharedVolume.UnstartedWorkerFails | src/service.rs:464-473 | a worker that cannot be started counts as a plain failure |

## Left out

- Ids of mails and folders are always present: the SDK types make `_id` optional, loaded entities carry one.
- SQLite, encryption, files and their failures: tables and body files are maps whose writes succeed; crashes fall between two messages, not inside a batch.
- The columns subject, sender, date, unread and list id of a row are the mail value itself.
- The full-text index, attachment retries, the on-demand fetch cooldown and body prefetch; a body written by the handler also goes to the body cache, which is modelled on its own.
- `reset()`, schema migration and the 44-day expiry of the cursor, which begin a new initial state.
- Sockets, TLS, JSON and key handling: the backend is a value that answers each call; frames are well formed.
- EventBus: models one group, the others appearing only in whether a restart runs the full sync again; the full sync lists at one moment, that of its first folder, and succeeds; close codes, heartbeats and the reconnect interval only decide when a step happens.
- Replication.ReplicaConverges: assumes that a batch has the same effect each time, every CREATE resolving; `Redelivery.CarefulRunConverges` drops that. A restart that runs the full sync although a cursor is saved is not one of its turns.
- Redelivery.RedeliveryConverges: assumes, like `DeliveriesConverge`, that mails which are finally filed still load, that UPDATEs that failed still fail, that folder ids are not used again, and that folder list and listings show the server in a state that includes the batch.
- Agreement.CrashRestartAgrees: assumes batches that leave each mail in one folder at most and listings consistent with memory, for which BatchAgreesIff and RelistAgreesIff show both to be needed.
- Uids: the guarantees are claimed while no counter exceeds 32 bits; the cut to 32 bits itself is modelled.
- UidRestart.RestartKeepsUids: one-way over runs, since a later operation can remove a mismatch again; the exact conditions are those of the single upsert, of the load and, in `DiskSteps`, of the events of a batch.
- BodyCache: concurrent refills and the never-invalidated bodies of deleted mails; counters do not overflow.
- SEARCH: Unicode case mapping and the substring and header-line tests are parameters of a message; 64-bit overflow in the day arithmetic of absurd years.
- SearchPrint.PrintKeepsMeaning: keys with an argument that has no text are excluded: dates before 1970, sizes beyond 64 bits, empty or wider than 32-bit sequence sets.
- GovernorModel.ThrottleSafety: speaks of requests that read the gate after arming, because HoldsBackIff shows that earlier readers can pass.
- Folder and attachment code takes its lists from the server as values; `move_mails` and the folder lookups by mail and type are single expressions.
- Attachments: resolving the entity type is taken to succeed; which of several errors is reported depends on the order in which archives are read and is left open.
- SharedVolume: operating system calls that fail while a worker is being ended; the reaping of adopted descendants, which hold no lock.
- The IMAP connection loop, MCP server, configuration, login, user interface and packaging.
