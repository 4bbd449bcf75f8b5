# Verified model of the message continuity core

This project models, in Dafny 4.11, the parts of the KakaoTalk bridge that must
not lose, repeat or reorder messages, and proves what they promise over every
input, every run and every crash point. `dafny verify dfyconfig.toml` checks
all of it.

The model follows the code; where the code and its own comments disagree, the
difference is stated below.

## What is modelled

- **Durable checkpoint** (`Continuity`, `Checkpoint`, `CheckpointRuns`): the
  sorted slices refine finite maps under every update; a store is one value in
  memory and one file; runs are sequences of saved updates.
- **Login cursor** (`LoginSync`): folding login pages into one cursor.
- **Bulk catch-up** (`CatchUpRoom`, `CatchUpChain`, `CatchUpAccount`,
  `CatchUpServer`, `CatchUpFinish`, `CatchUpClient`, `CatchUpRecovers`,
  `CatchUpServed`, `CatchUpOutcomes`): many rooms share one capped page stream,
  follow prevId links, skip intervals, retire by the boundary rule and end with
  events plus a recorded gap. Every method with a loop is proved equal to a
  recursive form, the theorems are about that form against an arbitrary server,
  and against an honest one, and the whole catch-up is stated on what the server
  holds.
- **Single-chat catch-up and the commit queue** (`CatchUpSingle`,
  `CatchUpClient`, `DeliverySession`, `ErasedGap`, `SessionFiles`): the session as
  a state machine of connects, catch-ups with failing writes, admissions,
  head-of-queue commits, later reads of single chats and crashes; and the same
  with the loaded value and the file apart.
- **Acquired history** (`Coverage`, `Overlay`, `OverlayChanges`, `HistoryStore`,
  `AcquiredHistory`, `ForgottenEdit`): interval pages with coverage in both directions, and the
  edit and deletion overlay, where every operation may stop after any number of
  durable writes.
- **Observed BSON** (`Bson`, `BsonGrammar`): the cursor that ignores container
  ends, against the document and element grammar of BSON 1.1.
- **Protocols as steps** (`Pacing`, `PacingBounds`, `LocoSession`, `LocoOutcomes`,
  `LocoTimers`, `DeliveryHold`, `HoldLimits`, `GroupJournal`): account pacing, request correlation, held-chat delivery and
  the once-only creation journal. Each is a machine whose runs are sequences of
  states and steps, and a class whose methods are proved to take only steps of
  the machine. `HeldCommits` and `OverflowBlocks` run the client's commit queue
  beside held-chat delivery.
- **Reaction rosters** (`Reactions`): deriving a complete roster from counts.

The network, the clock, event decoding, projection and disk outcomes are
parameters: functions of a call number, or explicit step arguments, so the
theorems hold for every behaviour of them. A mutex section is one atomic step. A
durable write replaces the whole value, replaces nothing, or reports a failure
after it replaced the value (`Basics.Write`); what is left out of the third
outcome is listed at the end.

## Where a promise does not hold as written

- Lookup order. A stored row is not always decided by its overlay: a target
  deleted after an edit whose content never arrived keeps each page's own record,
  so which one survives depends on page order
  (`HistoryStores.AmbiguityIsReachable`). Exactly: all orders of visiting the
  pages give one answer if and only if no stored row that the lookup may return
  is such a target (`HistoryStores.LookupIsUniqueIff`).
- Reopening the history store can change an answer. A page saved shorter drops a
  row, but memory keeps it as a target until the store is reopened; an unresolved
  edit of it then stops lookups that go on after a reopen
  (`ForgottenEdit.ReopenChangesTheAnswer`). A reopen changes which rows a lookup
  returns exactly when such a forgotten edit stands at or before one of them
  (`AcquiredHistory.ReopenKeepsLookupIff`).
- A skipped interval can be erased unread. A read of a single chat resolves the
  chat's gap through its target, though it reads only what lies above its
  position: with the commit at or above the target it reads nothing. A skipped
  interval below the commit then leaves the record without having been read
  (`ErasedGap.SkippedGapCanBeErased`, a whole run). Exactly: a read removes the
  recorded identities at or below its target and no others
  (`DeliverySession.ReadResolvesExactly`), and over every run an identity the
  catch-up owed, which no later read went through, stays recorded if and only if
  no later read that started at or above it had a target at or above it
  (`DeliverySession.OwedIsRecordedIff`).
- Content age. One packet can make a row show older content later: a MSG packet
  with an edit feed and a modifiedChatLog of another revision than the feed's,
  followed by a record in between (`Overlay.ContentCanFallBack`). SYNCMODMSG
  cannot, since its decoder refuses content of another revision. Over every run
  whose edits carry content at their own revision, shown content only gets newer
  (`Overlay.ContentOnlyGetsNewer`); an edit leaves its target safe exactly when
  it does (`Overlay.EditIsExactIff`), and a target can fall back in some
  operation or run exactly when it is not at its recorded revision
  (`Overlay.NeverFallsBackIff`). Deletion and the recorded revision never fall back.
- An edited and deleted log can make a page unstorable. An edit whose content was
  never seen records its revision; once the target is deleted, a page's older
  record would be kept as the tombstone's content but fails the check that content
  is at least as new, so the whole page is refused
  (`OverlayChanges.EditedThenDeleted`, from an empty store). Exactly: with writes
  enough a record is read if and only if it decodes and is not older than the
  revision of a deleted target without content (`OverlayChanges.RecordReadIff`),
  and a page is stored if and only if it is well formed and that holds of each of
  its records at its turn (`OverlayChanges.SavedIff`).
- Page overwrite. Saving a shorter page under an existing name can shrink
  coverage (`Coverage.OverwriteCanShrink`, condition
  `Coverage.OverwriteKeepsCoverageIff`). The pages acquired for a gap always have
  a new name.
- Pacing after a failed final write. The interval after a success can be lost: a
  fetch ends well, its record cannot be written, and another process fetches at
  the same instant (`PacingBounds.SpacingCanBeLost`, a whole run). Exactly: over
  every run and continuation the spacing from the end of a dispatch is kept if
  and only if its final write replaced the record or the record its start
  reserved already asks for as much (`PacingBounds.FinishKeepsSpacingIff`); and
  the next dispatch after any reachable state waits for an instant if and only if
  the record or the clock is there (`PacingBounds.NextDispatchIff`).
- An overflow can stop a chat. An event that a full buffer drops keeps its pending
  commit, and the read that returns it queues the commit again; the next event of
  the chat is then answered as out of order, and so is every retry for the rest of
  the session (`OverflowBlocks.OverflowBlocksTheChat`,
  `HeldCommits.RefusedStaysRefused`). Exactly: in every run each positioned event
  dropped leaves one pending commit too many (`HeldCommits.PendingExceedsByLost`),
  and at a quiet chat the next event's commit is in turn if and only if none was
  ever dropped (`HeldCommits.NextCommitIff`).
- Closing. A write that fails after some bytes marks the session closing without
  stopping its timers (`LocoSession.TearLeavesATimer`); nothing else does
  (`LocoSession.ArmedWhileClosing`), and until reading finishes and stops them a
  timer that fires does nothing (`LocoSession.ClosingArmsNothing`).

## Model

| member | source | states |
|---|---|---|
| SortedChats.LookupRefines | internal/continuity/continuity.go:450-453 | On every sorted slice the lookup finds a chat exactly when the finite map has it, and reads the map's value. |
| SortedChats.BinarySearch | internal/continuity/continuity.go:450-453 | On every sorted slice the halving search ends at the first entry at or above the chat. |
| SortedChats.UpsertRefines | internal/continuity/continuity.go:458-469 | Inserting or merging keeps the slice sorted and is the map update at that chat. |
| SortedChats.RemoveRefines | internal/continuity/continuity.go:470-475 | Removing keeps the slice sorted and is map removal. |
| Checkpoints.ValidateIff | internal/continuity/continuity.go:408-441 | A checkpoint passes validation exactly when its five slices are sorted and their maps hold only values in range. |
| Checkpoints.ReadsRefine | internal/continuity/continuity.go:125-152 | Committed maximum, first delivery start and gap reads are reads of the maps. |
| Checkpoints.MeaningValid | internal/continuity/continuity.go:200-326 | Every accepted update of a valid checkpoint gives a valid one, so publishing it never fails validation. |
| Checkpoints.Store.Reopen | internal/continuity/continuity.go:157-187 | A crash and reopen shows exactly what the file holds, also after a write that failed once it had replaced the file. |
| Checkpoints.Store.Publish | internal/continuity/continuity.go:385-406 | The value changes only when the new one is valid and the write succeeds; the file changes when the new value is valid and the write replaced it, even if it then reported a failure. |
| Checkpoints.Store.RecordGap | internal/continuity/continuity.go:243-257 | A legal gap widens the chat's recorded interval to the hull; a refused or failed one changes nothing. |
| Checkpoints.Store.ResolveGapThrough | internal/continuity/continuity.go:259-277 | Everything of the chat's gap through the log leaves the record; the rest stays. |
| Checkpoints.Store.RecordDeliveryStart | internal/continuity/continuity.go:280-304 | Raises the known target and lowers the first start of a never-committed chat; an unchanged boundary is reported saved without a write. |
| Checkpoints.Store.CommitMessage | internal/continuity/continuity.go:306-326 | Raises the committed maximum and the known target and drops the delivery start, or changes nothing. |
| Checkpoints.Store.CommitReadWatermark | internal/continuity/continuity.go:345-363 | Raises the chat's read watermark, never lowers it. |
| Checkpoints.Store.InstallSession | internal/continuity/continuity.go:200-239 | An installation that is legal and written leaves the checkpoint that InstallIs describes; any other leaves it as it was. |
| Checkpoints.InstallIs | internal/continuity/continuity.go:200-239 | For every checkpoint before and after, chat by chat: an installation leads from one to the other if and only if each chat observed has its last observed target, each other chat its target exactly when it was neither deleted nor replaced, both raised to its commit, commits, gaps, watermarks and starts lose exactly the deleted chats, tokens are taken when given, and the clean mark is gone. |
| Checkpoints.CommitIs | internal/continuity/continuity.go:306-326 | A commit drops the start, raises the maximum and, when it advances it, the known target; it lowers neither and touches no other chat. |
| Checkpoints.ReadMarkIs | internal/continuity/continuity.go:345-363 | A read commit never lowers a watermark and touches nothing else. |
| Checkpoints.AdmissionIs | internal/continuity/continuity.go:280-304 | An admission of a never-committed chat lowers its start and raises its target, at most to the log; of a committed chat it changes nothing. |
| Checkpoints.RecordGapIs | internal/continuity/continuity.go:243-257 | The recorded interval is the least that holds the old one and the new. |
| Checkpoints.ResolveGapIs | internal/continuity/continuity.go:259-277 | An identity stays recorded exactly when it was and lies above the log. |
| CheckpointRuns.RunsKeepInvariant | internal/continuity/continuity.go:200-326 | From an empty store every run keeps validity, every committed chat at or below its known target, and delivery starts disjoint from committed chats. |
| CheckpointRuns.BoundariesAreExtremes | internal/continuity/continuity.go:280-326 | In every run a chat's committed maximum is the greatest commit, and its delivery start the least admission without a commit, since the chat was last deleted; present exactly when there is one. |
| CheckpointRuns.CommittedMaximaGrow | internal/continuity/continuity.go:306-326 | No update lowers a committed maximum, and only deletion removes it. |
| CheckpointRuns.CommittedMaximaGrowInRuns | internal/continuity/continuity.go:200-326 | The same over every run between deletions of the chat. |
| LoginSync.RemoveTarget | internal/client/login_sync.go:87-118 | The observed list without the chat, as a map. |
| LoginSync.SetLoginTarget | internal/client/login_sync.go:120-128 | The observed list with the chat's new target, as a map, without duplicates. |
| LoginSync.Cursor.Apply | internal/client/login_sync.go:87-118 | One page folded into the cursor: deletions first, later targets win, tokens only from pages that commit them. |
| LoginSync.InstallTwice | internal/continuity/continuity.go:200-239 | For every checkpoint, two installations in a row equal one installation of the merged cursor. |
| LoginSync.FoldPages | internal/client/login_sync.go:45-118 | For every page sequence, with deletions, re-additions and a full-inventory replacement at the start, one installation of the folded cursor equals installing page by page, and is accepted when every page is; page by page, the cursor holds the last token and block that a page commits, the chats that a page deletes, and for each chat the target of the last page that names it unless a later one deletes it. |
| CatchUpRoom.ApplyBulkRun | internal/client/bulk_catchup.go:361-426 | The in-place loop over a run equals the recursive walk that the lemmas below are about. |
| CatchUpRoom.WalkDelivers | internal/client/bulk_catchup.go:392-426 | A walk that ends cleanly delivered exactly the run's logs at or below the ceiling, and only a prevId-linked run does. |
| CatchUpRoom.RunCovers | internal/client/bulk_catchup.go:392-401 | Every identity up to a linked run's end is one of its logs or strictly inside one of its links. |
| CatchUpRoom.SkipKeeps | internal/client/bulk_catchup.go:382-391 | A skipped interval is recorded whole and loses nothing accounted for before. |
| CatchUpRoom.RunKeepsRoom | internal/client/bulk_catchup.go:361-426 | Every run on every page keeps each identity from the room's start through its cursor delivered, inside a link or skipped, with increasing events. |
| CatchUpOutcomes.WalkIs | internal/client/bulk_catchup.go:392-426 | The first fault of a run decides how it ends: a broken prevId link breaks it, an undecodable body at or below the ceiling fails it. |
| CatchUpOutcomes.ApplyIs | internal/client/bulk_catchup.go:361-426 | A run that does not join the room or breaks ends the room where it was; a failed save or an undecodable log aborts; any other run delivers its logs up to the ceiling, moves the cursor past all of it, and records the hull of what was skipped before it. |
| CatchUpChain.BulkRuns | internal/client/bulk_catchup.go:340-358 | Groups a page by room exactly when every log belongs to a requested room at or after its since; each group is the room's logs after its cursor. |
| CatchUpChain.ApplyPage | internal/client/bulk_catchup.go:213-230 | All runs of a page are applied or the page fails; progress and acquisition are reported exactly. |
| CatchUpChain.TakePage | internal/client/bulk_catchup.go:197-248 | One request, its reply and the boundary rule equal the page step of the specification. |
| CatchUpChain.TakeTurn | internal/client/bulk_catchup.go:185-250 | One loop turn, with the spent acquisition budget and the page cap, equals the turn of the specification. |
| CatchUpChain.RunChain | internal/client/bulk_catchup.go:185-250 | The loop that shrinks the pending rooms equals the chain of the specification, for every server. |
| CatchUpOutcomes.UnjournaledStays | internal/client/bulk_catchup.go:227-232 | In a chain that finishes, a room that is only acquired never moves unless its run was saved and the acquisition cursors journaled on one page. |
| CatchUpOutcomes.SpentAcquiresNothing | internal/client/bulk_catchup.go:185-194 | Once the acquisition budget is spent no acquired room is read any more. |
| CatchUpOutcomes.LastPageRetires | internal/client/bulk_catchup.go:233-248 | A last page retires its whole batch: the stream ends after it, or goes on with the rooms beyond the batch alone. |
| CatchUpOutcomes.EmptyPageStops | internal/client/bulk_catchup.go:244-247 | A page without logs that is not the last stops the stream with the rooms as they are. |
| CatchUpAccount.RunIsWithin | internal/protocol/mchatlogs/mchatlogs.go:36-74 | A room's run on a page that passed the response checks is strictly increasing and after its cursor. |
| CatchUpAccount.ChainAccounts | internal/client/bulk_catchup.go:185-250 | For every sequence of server pages, a chain that is not aborted leaves every room accounted for through its cursor, its start and ceiling unchanged. |
| CatchUpServer.PageShare | internal/client/bulk_catchup.go:233-248 | A page holds a prefix of what is left of each room, and all of it for every room the boundary rule retires. |
| CatchUpServer.ShareKeepsCourse | internal/client/bulk_catchup.go:361-426 | A room still chained to its ceiling takes its share without a gap and is recovered once nothing is left. |
| CatchUpServer.ChainRecovers | internal/client/bulk_catchup.go:185-250 | Against a server that answers the first n>=1 remaining logs and sets eof exactly when nothing was cut, every retired room holds exactly the server's logs in (committed, ceiling] and no gap; only the page cap leaves rooms behind. |
| CatchUpServer.CommittedOnCourse | internal/client/bulk_catchup.go:262-283 | A committed room from which the server still chains to its ceiling starts on that course. |
| CatchUpServer.PageShrinks | internal/client/bulk_catchup.go:244-248 | Every page retires a room or takes a log, so the chain cannot stall. |
| CatchUpServer.PagingRefinesPerRoomReads | internal/client/bulk_catchup.go:185-426 | With fewer rooms and logs outstanding than the page cap, the shared page stream ends, and every room on course holds exactly the server's logs of its interval and no gap. |
| CatchUpRecovers.SharedEqualsAlone | internal/client/bulk_catchup.go:185-426 | Whenever the shared stream and a chain of one room alone both retire the room, they give it exactly the same events, the server's, whatever the page sizes, the other rooms and the page cap. |
| CatchUpRecovers.BothRetire | internal/client/bulk_catchup.go:185-250 | Both do when rooms and logs outstanding are fewer than the page cap. |
| CatchUpFinish.SelectBulkRooms | internal/client/bulk_catchup.go:262-307 | Selects exactly the chats that need catch-up, each from its commit or first admission, and with startup history exactly the inventory chats still to acquire. |
| CatchUpFinish.FinishedRoomAccounts | internal/client/bulk_catchup.go:428-472 | Once a room's writes are done, the checkpoint's gap holds every identity the room neither delivered nor saw inside a link, also after a projection failure. |
| CatchUpOutcomes.RecordsExactly | internal/client/bulk_catchup.go:437-470 | A finished room records exactly what was skipped and what lies beyond its cursor, or its whole interval when it does not project, and resolves the gap it had exactly when it records nothing. |
| CatchUpRecovers.RecoveredRoomLeavesNoGap | internal/client/bulk_catchup.go:428-472 | A recovered room that projects records no gap, clears what was recorded through its ceiling, and delivers the server's logs of its interval. |
| CatchUpClient.Client.QueueCommit | internal/client/client.go:639-646 | A queued commit goes behind the chat's others and leaves other chats' queues alone. |
| CatchUpClient.Client.CommitEvent | internal/client/client.go:566-601 | Only the head of a chat's queue commits, and it leaves the queue exactly when its commit succeeds, which is then in the file; otherwise queue and value are unchanged, and the file changes only by the head's own commit, whose write failed after replacing it. |
| CatchUpOutcomes.HeadLeaves | internal/client/client.go:590-601 | A commit takes exactly the head off its chat's queue. |
| CatchUpClient.Client.FinishRoom | internal/client/bulk_catchup.go:437-470 | All gap writes precede any queueing: the events are queued exactly when every write succeeds, and on failure nothing was queued. |
| CatchUpClient.Client.FinishBulkRooms | internal/client/bulk_catchup.go:430-472 | On success every catch-up room is reported and settled in the final checkpoint, and its events are queued in order. When a gap write fails, the rooms before it are settled and queued, its own room queued nothing, and the rooms after it keep gap and queue. |
| CatchUpClient.FinishSettles | internal/client/bulk_catchup.go:437-470 | For every room as its chain ended: each identity in [gapStart, ceiling] is an event, inside a link, or in the recorded gap; events increase and stay in the interval. |
| CatchUpClient.Client.CatchUpAll | internal/client/bulk_catchup.go:114-256 | Against a server that holds db, with the rooms and logs to be read below the page cap: every room whose login ceiling reaches the floor, from whose position the server still chains to the ceiling and which projects, ends with exactly the server's logs in (committed, ceiling], those queued, and no gap left through the ceiling. Against any server: the rooms reported are those that needed catch-up, each identity of their intervals is delivered, inside a link or in the gap; a room below the floor or not projecting has no events and its whole interval recorded. Paging fails only on a page that cannot be used or stored, does fail when nothing answers, and then changes nothing; finishing fails only on a failed write, with the rooms before it finished and those after it untouched. |
| CatchUpServed.ReachableIsRecovered | internal/client/bulk_catchup.go:114-256 | The rooms and positions the first request is about are those of Asked, read off the checkpoint, the floor and the inventory; with them and the logs beyond them below the page cap, each reachable room ends recovered. |
| CatchUpServed.FaultlessFinishes | internal/client/bulk_catchup.go:185-250 | A chain aborts only if some page could not be read, did not answer its request, or could not be decoded or stored. |
| CatchUpServed.UnreachableAborts | internal/client/bulk_catchup.go:185-207 | With a room to deliver and no answer the chain aborts, even when the acquisition budget is spent at once. |
| CatchUpSingle.ReadPage | internal/client/sync.go:292-316 | The page loop equals the recursive scan. |
| CatchUpSingle.ScanIsWithin | internal/client/sync.go:292-316 | A page's events increase from the position, stay at or below the target, and end at the new position. |
| CatchUpSingle.ScanIs | internal/client/sync.go:292-316 | A page is taken exactly when no log lies below the position or an earlier log within the target and every fresh one decodes; it then adds exactly the first log of each identity in (position, target]. |
| CatchUpSingle.ReadingIs | internal/client/sync.go:277-346 | Every read has one course of positions, each the last log its page added; it is complete exactly when a page reaches the target, missing something when a page adds nothing, reports a gap or the pages run out, and abandoned on any other failure; a complete one returns exactly what its pages added. |
| CatchUpSingle.HonestReadCompletes | internal/client/sync.go:277-336 | Against a server that answers with the next logs, and with no more logs than pages, a read completes with exactly the server's logs beyond the position. |
| CatchUpSingle.CatchUp | internal/client/sync.go:245-346 | Succeeds exactly when the chat is already at the target, or the read completes and projects, and a gap to resolve could be resolved; it returns what was read, ending at the target, queues it and leaves no gap through it. A failure queues nothing, and records the whole interval exactly when the read left it missing or did not project, and the write succeeded. |
| DeliverySession.ChainsArePlannable | internal/client/bulk_catchup.go:250-305 | What a catch-up hands to its finishing step is what the session machine admits. |
| DeliverySession.RunsAreSafe | internal/client/client.go:566-646 | Every run of connect, catch-up, finish with failing writes, admit, commit, single-chat read and crash keeps the checkpoint valid and the queues in order; each owed identity of a finished room is recorded, or a later read went through it, or one erased it, and what those reads resolved stays off the record. |
| DeliverySession.CommitsFollowTheQueue | internal/client/client.go:566-601 | In every run a chat's commits in a session are a prefix of what was queued for it. |
| DeliverySession.ReadResolvesExactly | internal/client/sync.go:266-271 | A successful read of a chat removes from the record exactly the chat's identities at or below its target, read or not; every other recorded identity of every chat stays. |
| DeliverySession.OwedIsRecordedIff | internal/client/sync.go:266-346 | In every run, an identity that a finished room owes and no later read went through is recorded if and only if no later read resolved the gap from a position at or above it. |
| ErasedGap.SkippedGapCanBeErased | internal/client/sync.go:266-271 | A run from the empty checkpoint in which the committed maximum passes a skipped log that is neither delivered, nor read, nor recorded. |
| DeliverySession.NoCommitPassesAnUnrecordedGap | internal/client/bulk_catchup.go:437-470 | In every run, once a durable commit has reached an identity the session's catch-up skipped or did not recover, it is durably recorded as a gap, unless a later successful read of the chat had a target at or above it. |
| SessionFiles.NoFilePassesAnUnrecordedGap | internal/continuity/continuity.go:385-406 | The same of the file, over every run in which any write may fail after replacing it: the further exception is a read whose resolve was the last write to reach the file. |
| SessionFiles.OwedIsFiledIff | internal/client/sync.go:266-346 | In every such run, an identity that a finished room owes and no later read went through is recorded in the file if and only if no read resolved it unread, neither in the loaded value nor last on disk. |
| SessionFiles.RunsKeep | internal/continuity/continuity.go:385-406 | In every such run the file is the loaded value, or the one update ahead of it whose write failed last, and a restart from it is as safe as any session. |
| Coverage.CoverEndIs | internal/client/history_store.go:590-604 | Any end that is covered throughout and cannot be extended is the end of the one-by-one walk, so the answer does not depend on page order. |
| Coverage.CoveredThrough | internal/client/history_store.go:590-604 | The fixpoint over pages terminates at the walk's end, the greatest connected endpoint capped at the maximum. |
| Coverage.CoverEndGreatest | internal/client/history_store.go:590-604 | No connected endpoint lies beyond it. |
| Coverage.SuffixAfter | internal/client/history_window.go:88-100 | The backward fixpoint equals the one-by-one walk down. |
| Coverage.CoverageIsDual | internal/client/history_window.go:75-100 | The forward end reaches through, and the backward start reaches after, exactly when every identity in between is covered. |
| Coverage.MissingThrough | internal/client/history_window.go:133-138 | The first page start beyond the covered end, or through. |
| Coverage.FirstGap | internal/bridge/connector/history_pages.go:154-158 | When the interval is not complete, (covered, missing] is nonempty, inside it and disjoint from every page, so the guard before an acquisition never fires. |
| Coverage.NewPageExtends | internal/client/history_store.go:337-375 | A page under a new name never shrinks coverage and extends it when it connects. |
| Coverage.OverwriteKeepsCoverageIff | internal/client/history_store.go:362-368 | Replacing a page of the same name never shrinks coverage exactly when every identity it drops lies in another page. |
| Coverage.OverwriteCanShrink | internal/client/history_store.go:362-368 | It can: a shorter page under the same name. |
| Coverage.GapPageAdvances | internal/bridge/connector/history_pages.go:154-170 | The page acquired for a first gap has a new name and moves coverage at least to its last identity. |
| Overlay.RecordsKeep | internal/client/history_store.go:301-335 | Whatever number of writes succeeds, deletions stay and revisions do not fall; when all do, every record is overlaid by content at least as new. |
| Overlay.RunsOnlyGetNewer | internal/client/history_store.go:255-375 | Over every run of live changes, record reads and page saves, each cut short at any write, deletion is absorbing, revisions never fall and every stored row stays overlaid. |
| Overlay.NothingReturns | internal/client/history_store.go:255-405 | After any run no stored row of a deleted target shows content, and none shows a revision older than was recorded or than its own; how shown content compares with what was shown before is ContentOnlyGetsNewer. |
| Overlay.ContentCanFallBack | internal/client/history_store.go:485-490 | A MSG packet whose edit feed and modifiedChatLog name different revisions, and then a record in between, make the row show older content. |
| Overlay.ContentOnlyGetsNewer | internal/client/history_store.go:255-405 | Over every run whose live edits carry content at their own revision, cut short at any writes, whatever stored rows of a target show before and after, the later content is not older. |
| Overlay.NeverFallsBackIff | internal/client/history_store.go:255-375 | Over all operations, and over all runs, cut short anywhere: a target's shown content can fall back exactly when its revision is not the recorded one. |
| Overlay.EditIsExactIff | internal/protocol/events/edit_delete.go:129-160 | A live edit written with content leaves its target at the recorded revision exactly when the content's revision is the edit's, which the SYNCMODMSG decoder demands. |
| OverlayChanges.DeletionDeletes | internal/client/history_store.go:255-299 | A deletion that can be written deletes its target, whether or not the overlay knew it, and keeps its revision and content. |
| OverlayChanges.EditIsWrittenIff | internal/client/history_store.go:282-299 | An edit is written exactly when its target is not deleted, its log and revision are not below the recorded ones and it is not a repeat; the recorded revision is then the edit's. |
| OverlayChanges.RecordShowsIff | internal/client/history_store.go:301-335 | After a record was read its row shows it exactly when its target is not deleted and it is not older than what was recorded. |
| OverlayChanges.DeletedForGood | internal/client/history_store.go:255-405 | Over every run, cut short anywhere: once an operation deleted a target, live or through a record, every stored row of it shows a tombstone from then on, whenever it was stored. |
| OverlayChanges.RecordReadIff | internal/client/history_store.go:301-335 | With writes enough a record is read exactly when it decodes and is not older than an edit, of unknown content, of a deleted target. |
| OverlayChanges.SavedIff | internal/client/history_store.go:337-375 | With writes enough a page is stored exactly when its request is one, its logs ascend from the position, some are selected and those decode, and none of them is too old in that sense at its turn. |
| OverlayChanges.SavedIs | internal/client/history_store.go:337-375 | A save that succeeds stores exactly the selected logs in order and leaves every other page; one that fails stores none. |
| OverlayChanges.EditedThenDeleted | internal/client/history_store.go:225-254 | From an empty store: after an edit without content and a deletion of a log, no page that holds the log's older record can be stored. |
| HistoryStores.LookupIsUniqueIff | internal/client/history_store.go:407-483 | The answer is the same for all orders of visiting pages exactly when no stored row of the covered interval before the first unresolved edit is deleted without known content and recorded differently by two pages. |
| HistoryStores.AmbiguityIsReachable | internal/client/history_store.go:255-483 | Two page saves, an edit without content and a deletion reach a store where two orders of its pages give different answers. |
| AcquiredHistory.HistoryStore.Reopen | internal/client/history_store.go:85-191 | Reopening rebuilds pages and overlays from the files as they were, clears the failure flag, and targets exactly the stored rows and the acquired overlays. |
| AcquiredHistory.ReopenKeepsLookupIff | internal/client/history_store.go:130-191 | A reopen leaves which rows a lookup returns as they are exactly when no unresolved edit of a target that only memory still knows stands at or before a row it would then return. |
| ForgottenEdit.ReopenChangesTheAnswer | internal/client/history_store.go:337-375 | An edit without content, its page, a second page and the first page saved shorter: a lookup returns one row, and after a reopen two. |
| AcquiredHistory.HistoryStore.ObserveEvent | internal/client/history_store.go:255-299 | The overlay and its file change together as the specification says; a failed write poisons the store. |
| AcquiredHistory.HistoryStore.ObserveRecords | internal/client/history_store.go:301-335 | Record by record, stopping at the first write that fails. |
| AcquiredHistory.HistoryStore.Save | internal/client/history_store.go:337-375 | Overlays reach the disk before the page, whatever write fails; a record failure poisons the store. |
| AcquiredHistory.HistoryStore.Lookup | internal/client/history_store.go:407-483 | The answer for the order in which its pages were visited: the ascending stored rows of (cur, covered end] before the first unresolved edit, all of them and nothing else, each the last visited page's record through the overlay. |
| AcquiredHistory.HistoryStore.ReadWindow | internal/client/history_window.go:69-162 | The newest rows the window admits, its coverage facts, and whether more exists; unresolved exactly when one of those newest rows has an edit whose content is not stored. |
| Bson.ReadCString | internal/shadow/bounded_bson.go:312-322 | The scan stops at the first zero byte at or after the position, or at the end. |
| Bson.SkipObservedValue | internal/shadow/bounded_bson.go:241-310 | The width of a type without a value branch, or malformed; never beyond the input. |
| Bson.ElementAt | internal/shadow/bounded_bson.go:146-231 | For every input an element's resume position stays inside the input, and visits stay within one of the limit. |
| Bson.TurnAt | internal/shadow/bounded_bson.go:66-140 | Each turn of a document loop moves strictly forward inside the input and spends a visit. |
| Bson.DecodeObservedElement | internal/shadow/bounded_bson.go:146-231 | The recursive element decoder equals the specification. |
| Bson.DecodeObservedDocument | internal/shadow/bounded_bson.go:66-140 | The document loop with its shared visit counter equals the specification. |
| Bson.DecodeObservedBson | internal/shadow/bounded_bson.go:42-64 | For every byte string and option set the decode terminates and spends at most the work limit plus one visits. |
| Bson.ScalarMalformedIff | internal/shadow/bounded_bson.go:146-310 | A value without a document in it is malformed exactly when its bytes do not fit, it declares no legal length or its text has no end; its type is unknown exactly above 0x12. |
| Bson.NestedRefused | internal/shadow/bounded_bson.go:66-231 | A nested document that declares fewer than five bytes or more than are left is malformed; one too deep or out of visits is out of bounds. |
| BsonGrammar.EncodedLies | internal/shadow/bounded_bson.go:66-140 | Every encoded well-formed field list lies in the input as the cursor reads it. |
| BsonGrammar.FieldsRead | internal/shadow/bounded_bson.go:66-140 | The cursor over an encoded list gives the grammar's tree and visit count when nesting and work fit, and a bounds error otherwise. |
| BsonGrammar.VisitsAtMostWidth | internal/shadow/bounded_bson.go:233-239 | The visits a well-formed list needs are at most its bytes. |
| BsonGrammar.DecodesTheGrammar | internal/shadow/bounded_bson.go:42-231 | On every well-formed document, followed by anything, the cursor that ignores container ends returns the length-respecting tree (later duplicates win, nulls and unassigned types skipped) exactly when size, nesting and visits are within the limits, and the bounds error otherwise; the tree ends at an element of unknown type, whose type the result names if the document itself holds it and not if a nested one does; at most the byte count is spent. |
| BsonGrammar.DefaultLimitsSuffice | internal/shadow/bounded_bson.go:43-54 | With default byte and work limits only nesting beyond the depth limit is refused. |
| Pacing.GuardsSpace | internal/client/history_admission.go:207-216 | A start at or after the allowed instant is spaced from the last dispatch by both processes' policies. |
| Pacing.StepKeepsInv | internal/client/history_admission.go:169-259 | Every step, including a crash and a failed write, keeps the durable record guarding the last dispatch. |
| Pacing.LeaveKeeps | internal/client/history_account.go:88-100 | The last admission of a process that leaves takes the failure flag with it, and the record still guards the last dispatch. |
| Pacing.DispatchesAreSpaced | internal/client/history_admission.go:193-259 | Over every run with several processes, crashes and failed writes: each dispatch starts after the previous one ended, an interval after a recorded success, a backoff after a recorded failure, a backoff from the reserved start otherwise. |
| PacingBounds.NextDispatchIff | internal/client/history_admission.go:193-216 | In every run, once a dispatch has ended: whatever follows, the next one waits for an instant if and only if the record or the clock is already there. |
| PacingBounds.FinishKeepsSpacingIff | internal/client/history_admission.go:218-259 | The spacing a dispatch asks for from its end is kept over every continuation if and only if its final write replaced the record, or the record reserved by its start asks for as much. |
| PacingBounds.SpacingCanBeLost | internal/client/history_admission.go:218-259 | A run in which a fetch ends well, its record is lost, and another process may fetch at once. |
| Pacing.Account.PersistState | internal/client/history_admission.go:169-185 | The copy changes first; a failed write poisons the process and may or may not have replaced the record. |
| Pacing.Account.AcquireAccount | internal/client/history_account.go:136-233 | Under the lease the copy is the durable record raised to older cooldowns, republished when that raises it. |
| Pacing.Account.DispatchHistory | internal/client/history_admission.go:193-259 | One admitted request makes at most one dispatch, marks it as it ended, and gives the lease back. Refused exactly when the process failed a write before or cannot write an older cooldown; cancelled exactly when the wait is or ends before the instant allowed; otherwise dispatched exactly when its reservation is written, at an instant the record allows. |
| HistoryDemand.AccountGate.ReserveDemand | internal/client/history_account.go:102-121 | A demand is refused as busy exactly when the account's admissions together are at the limit; the shared count stays their sum. |
| HistoryDemand.AccountGate.FinishDemand | internal/client/history_account.go:122-134 | Ends one demand of one admission and keeps the shared count the sum. |
| LocoSession.AllocationFailsIffFull | internal/client/session.go:608-630 | Allocation fails exactly when every identity of the range is pending or armed; otherwise it has one answer, which is neither. |
| LocoSession.StepKeepsInv | internal/client/session.go:484-865 | Every send, abandon, arm, reply, timeout, torn write, close and end of reading keeps requests correlated. |
| LocoSession.EachRequestResolvesOnce | internal/client/session.go:484-865 | Over every interleaving each request receives at most one outcome, a reply only with its own packet identity and method, an end only once reading finished; then nothing is pending, no timer is armed and every request has its outcome or was given up. |
| LocoOutcomes.OutcomeIff | internal/client/session.go:777-842 | Over every interleaving a request ends with an outcome if and only if a step of the run put it there while the request waited: a reply of its own identity and method, or the end of reading. |
| LocoOutcomes.ReplyIsTheOutcome | internal/client/session.go:777-792 | A request whose reply arrives while it waits ends with that reply, alone. |
| LocoTimers.TimedOutIff | internal/client/session.go:552-598 | Over every interleaving the session counts as timed out if and only if an armed timer fired while it was open. |
| LocoTimers.GivenUpGetsNothing | internal/client/session.go:726-732 | A caller that gave up gets nothing, whatever arrives later under its identity. |
| LocoTimers.ReuseComesLast | internal/client/session.go:484-513 | An identity just taken is handed out again only when every other of the range is reserved. |
| LocoSession.ClosingArmsNothing | internal/client/session.go:553-585 | A closing session arms no timer, and a timer that fires in it changes nothing. |
| LocoSession.ArmedWhileClosing | internal/client/session.go:690-701 | Over every interleaving a closing session has an armed timer only after a write that failed with some bytes out. |
| LocoSession.TearLeavesATimer | internal/client/session.go:690-701 | And after one it can. |
| LocoSession.Session.AllocateRequestID | internal/client/session.go:608-630 | The first free identity from nextID on, around the range. |
| LocoSession.Session.BeginRequest | internal/client/session.go:484-513 | Registers the request under a free or chosen identity, or refuses it and registers nothing. |
| LocoSession.Session.DispatchPacket | internal/client/session.go:777-792 | A packet completes the pending request with both its identity and method: the request leaves, its own channel receives exactly the reply and no other anything, and only a timer with both is disarmed; any other packet changes no request. |
| LocoSession.Session.FireHeaderTimeout | internal/client/session.go:572-585 | Only the armed timer itself closes the session, and a closing session ignores it. |
| LocoSession.Session.FinishRead | internal/client/session.go:814-842 | Exactly the channels whose request still waits receive the end, once, and nothing stays pending or armed; a second end changes nothing. |
| DeliveryHold.StepKeepsInv | internal/bridge/connector/delivery_hold.go:106-228 | Every delivery, hold, retry, catch-up read and release keeps each chat's delivery order over its append-only history, the paused counter and the retry bound. |
| DeliveryHold.HeldDeliveryIsSafe | internal/bridge/connector/delivery_hold.go:106-228 | In every run a chat's delivery order is what was handled followed by its buffer; its live part is the received events that were kept, in the order received; every other positioned event received is at or below missedThrough or what a read went through; the paused counter counts the paused chats, and timed retries since the last trigger stay within the delay list. |
| DeliveryHold.ReceivedIsAccounted | internal/bridge/connector/delivery_hold.go:106-228 | In every run every positioned event a chat ever received was handled, is buffered, or is at or below missedThrough or the target of a successful read. |
| DeliveryHold.HistoryOnlyGrows | internal/bridge/connector/delivery_hold.go:124-228 | No step takes back anything received, ordered or handled, or lowers how far reads went. |
| DeliveryHold.HonestReadsLoseNothing | internal/bridge/connector/delivery_hold.go:198-228 | In every run whose reads return what overflow dropped, each positioned event received was handled or is buffered, live or as read again, or is still to be read; a chat that is not held has handled them all. |
| HoldLimits.AddIs | internal/bridge/connector/delivery_hold.go:124-132 | A held chat's next event joins the buffer's end unless something was dropped before it or the buffer is full; then it is dropped, and a positioned one raises the read to come. |
| HoldLimits.ScheduleIs | internal/bridge/connector/delivery_hold.go:146-163 | The next retry is timed while access is open and delays are left, with none left the chat pauses and is counted once, and without access it waits for a trigger. |
| HoldLimits.ReceivedIs | internal/bridge/connector/delivery_hold.go:106-144 | Everything brought to a chat counts as received, once and in order, and nothing else does. |
| HoldLimits.FewAreAllKept | internal/bridge/connector/delivery_hold.go:124-228 | In every run a chat that received no more than the buffer holds kept every event, and no read is due. |
| DeliveryHold.CatchUpReads | internal/client/sync.go:292-346 | What a single-chat catch-up returns meets the condition the machine puts on a read: rising positions of the chat that end at the target. |
| HeldCommits.StepKeepsInv | internal/bridge/connector/delivery_hold.go:106-228 | Every arrival, delivery, hold, overflow, retry, read and release keeps a chat's pending commits in balance: one for each undelivered position and one more for each dropped; with none dropped, exactly the undelivered ones in order. |
| HeldCommits.CommitsAreNeverOutOfOrder | internal/client/client.go:566-646 | In every run the next event of a chat that overflow dropped nothing of commits in turn, whatever is held, retried or lost elsewhere. |
| HeldCommits.PendingExceedsByLost | internal/client/sync.go:328-332 | In every run, with overflow and reads, a chat has one pending commit more than undelivered events for each event that overflow ever dropped. |
| HeldCommits.NextCommitIff | internal/client/client.go:590-592 | In every run, when a chat is quiet, the commit of the next new event is in turn if and only if overflow never dropped an event of the chat. |
| HeldCommits.RefusedStaysRefused | internal/bridge/connector/delivery_hold.go:198-228 | In every run, once a held chat's first event is refused as out of order, it stays first and refused for the rest of the session. |
| OverflowBlocks.OverflowBlocksTheChat | internal/bridge/connector/delivery_hold.go:124-228 | A run: a full buffer drops an event, the read returns it and it is handled, and the next event of the chat is refused. |
| DeliveryHold.Pump.Deliver | internal/bridge/connector/delivery_hold.go:106-122 | A held chat's event only joins its buffer; otherwise it is handled once, and a failure holds its chat; only an unscoped failure is not taken. |
| DeliveryHold.Pump.Add | internal/bridge/connector/delivery_hold.go:124-132 | Buffers while there is room and nothing was missed, else raises missedThrough. |
| DeliveryHold.Pump.ScheduleHeld | internal/bridge/connector/delivery_hold.go:146-163 | The next delay of the schedule, or a wait for access, or a pause that is counted once. |
| DeliveryHold.Pump.Drain | internal/bridge/connector/delivery_hold.go:201-208 | Events are handled in order up to the first failure, which keeps it and the rest. |
| DeliveryHold.Pump.RetryHeld | internal/bridge/connector/delivery_hold.go:198-228 | Releases the chat with its whole buffer handled, or leaves it held with one more attempt counted, after a call that refused the buffer's head or the read; other chats are untouched. |
| DeliveryHold.Pump.RetryDueHolds | internal/bridge/connector/delivery_hold.go:177-183 | Every chat whose timed retry is due is retried once, and ends as RetryHeld says; the others are untouched. |
| DeliveryHold.Pump.ResumeHeld | internal/bridge/connector/delivery_hold.go:187-194 | Every chat asked for that waits for a trigger is retried once with its schedule restarted; chats with a timed retry, and chats not asked for, are untouched. |
| DeliveryHold.NextHeldRetry | internal/bridge/connector/delivery_hold.go:166-174 | The earliest timed retry of all held chats, if any. |
| Reactions.CountPut | internal/bridge/connector/reaction_derive.go:141-145 | One member's change moves exactly one unit of count. |
| Reactions.LegacyCountsMatch | internal/bridge/connector/reaction_derive.go:141-156 | Holds exactly when the wanted counts are the roster's counts. |
| Reactions.ResolveUniqueHolder | internal/bridge/connector/reaction_derive.go:161-199 | Moves the one member a count difference names, and nothing when it names none. |
| Reactions.AttributionIsUnique | internal/bridge/connector/reaction_derive.go:161-199 | A count difference names at most one change. |
| Reactions.StoredPicksAre | internal/bridge/connector/reaction_derive.go:68-82 | The stored roster can be read exactly when every legacy row has a positive sender and no two of one sender differ; a member then holds what some row says of it. |
| Reactions.WantsAre | internal/bridge/connector/reaction_derive.go:100-110 | The push's counts can be read exactly when every item is of the legacy kind and range; a reaction is then wanted as often as its last positive item says. |
| Reactions.DeriveLegacyReactions | internal/bridge/connector/reaction_derive.go:60-139 | A derived roster has exactly the counts the push asks for and the own pick, is derived only from a confirmed push of the legacy kind and readable rows, and differs from the roster the rows describe only as the push explains. |
| Reactions.ChangeIsAttributable | internal/bridge/connector/reaction_derive.go:161-199 | Another member's change is attributed exactly when that member held a selection no other member but this account held. |
| Reactions.DerivesTheTruth | internal/bridge/connector/reaction_derive.go:47-139 | If the true roster differs from the one the rows describe only by the own pick, the named actor, or one other member, the derivation returns it or nothing; with an actor always, without one exactly when no other member changed or the one who did was the sole holder. |
| GroupJournal.StepKeepsInv | internal/bridge/connector/group_create.go:103-232 | Every step, with saves that fail before or after reaching the store and crashes anywhere, keeps what history demands of both journals. |
| GroupJournal.SentAtMostOnce | internal/bridge/connector/group_create.go:163-232 | Over every run each room gets at most one CREATE and one completion ADDMEM, and a recorded source identity is never replaced in either journal. |
| GroupJournal.OneCreationInDoubt | internal/bridge/connector/group_create.go:145-213 | A CREATE goes out only when its own attempt is the only unresolved entry of both journals and every earlier creation was refused or bound. |
| GroupJournal.Connector.SaveGroupAttempt | internal/bridge/connector/group_create.go:103-143 | A good save changes both journals alike; a failed one leaves the loaded journal as it was. |
| GroupJournal.Connector.CheckUnresolvedGroupCreates | internal/bridge/connector/group_create.go:145-159 | Clear exactly when every journalled attempt was rejected or bound. |
| GroupJournal.Connector.CreateGroup | internal/bridge/connector/group_create.go:163-232 | CREATE goes out exactly for a room without an attempt, nothing unresolved, a room that fits and a good save; the new attempt then has the reply, when that was saved. A journalled room is refused exactly when the request differs from it or was rejected, unresolved exactly without a source chat, and otherwise only bound. |
| GroupJournal.Connector.ReconcileGroup | internal/bridge/connector/group_reconcile.go:64-162 | Never sends CREATE; refused exactly when there is no unresolved attempt, the chat is not the confirmed one, the room or the roster does not match, or invitations are missing that were reserved before; invitations go out exactly when some are missing and their reservation is saved. |
| GroupJournal.Connector.ResumeGroupCreates | internal/bridge/connector/group_create.go:434-456 | Succeeds exactly when nothing is left unresolved, sends nothing, and changes an attempt only by binding it. |

## Left out

- `migrate`, report counters, `SyncTargets` and other accessors of the checkpoint: easy members beside the updates.
- `MarkRead`: a short loop around the read watermark, whose durable update is modelled.
- The live stream's duplicate filter (`decodeEventStreamWithTerminalStop`): only its admissions and queueing enter the session machine.
- `SeedLastMessage` and `UndeliveredTargets`: the session machine has one catch-up per connect, before live events, as the connector orders them; a bulk history resume across connects is the acquisition cursor given to `SelectBulkRooms`.
- `bulkSnapshot` and `commitBulk`: acquisition cursors are a parameter, and whether a page's cursors could be saved is an outcome of the page.
- Unavailable-interval records and the chat metadata revision of the history store.
- Single flight of identical history requests (`run`, `exchange`): responses are shared, pacing is per dispatch.
- Profile files, directory validation, future-dated records and lease retry: an acquisition that is refused takes no step.
- TLS and secure carriage, dialing, booking, HTTP permits, media transfer, message conversion, Matrix state and commands.
- CatchUpChain.BulkRuns: the positional chat and since arrays of the request are a map by room, and the response checks of `ParseResponse` appear as an aborted page.
- Overlay.RecordsKeep: a record's revision is a natural number, so a negative revision, which would leave a row without an overlay, is not modelled.
- CatchUpServer.PagingRefinesPerRoomReads: stated for rooms from whose commit the server still chains to the ceiling; a never-committed room may start below its first log's predecessor and then ends with a gap. Without the bound on rooms and logs, CatchUpServer.ChainRecovers says the same of the rooms that were retired.
- CatchUpClient.Client.CatchUpAll: exact recovery is stated for those rooms too; how long the stream takes beyond the page cap, and the order of requests, are those of the chain.
- DeliverySession.NoCommitPassesAnUnrecordedGap: accounts for the identities of this connect's catch-up; a fully recovered room also clears an older gap below its start. The exception for later reads is the code's own, see above.
- Bson.DecodeObservedBson: UTF-8 validity is an arbitrary predicate on bytes, and doubles are their bit patterns.
- BsonGrammar.DecodesTheGrammar: strings the cursor reads contain no zero byte, as the cursor ends them there.
- Pacing.DispatchesAreSpaced: a dispatch's start is the instant it reserved in the record, which precedes the request on the wire; time is a non-decreasing integer shared by all processes.
- HistoryDemand.AccountGate.ReserveDemand: opening and closing gates by path is left to the account's set of admissions.
- LocoSession.EachRequestResolvesOnce: keepalive scheduling and push delivery are not modelled.
- DeliveryHold.HeldDeliveryIsSafe: an event without a position that arrives at a full buffer is lost, as in the code; what a read returns beyond rising positions that end at its target is the server's, so that it returns what was dropped is the hypothesis of HonestReadsLoseNothing. A chat is not held twice at once.
- Reactions.DeriveLegacyReactions: whether the stored roster is confirmed for this session and revision is a parameter.
- GroupJournal.Connector.CreateGroup: participant and room validation, the source roster check and the Matrix binding are outcomes of their calls.
- Checkpoints.ValidateIff: the file version and the refusal of absent slices are not modelled; a checkpoint here always has its five slices.
- Checkpoints.Store.Reopen: migration of older files, and the refusal of a file that does not validate, are not modelled; every file here was published.
- DeliverySession.RunsAreSafe: a write that fails after replacing the file is a step of SessionFiles, which wraps this machine.
- AcquiredHistory.HistoryStore.ObserveEvent: a history write that fails after replacing its file is not a case of its own; the store refuses everything after it, and the reopened files are those of a run cut one write later.
- Overlay.ContentOnlyGetsNewer: what a page's row shows while an edit without content is unresolved is nothing, so such moments are not compared.
- HeldCommits.CommitsAreNeverOutOfOrder: the holds and queued events of the bootstrap before live delivery are not steps here; commits whose write fails are events not handled.
- AcquiredHistory.ReopenKeepsLookupIff: about which rows are returned; rows recorded differently by two pages may show either record before and after, as LookupIsUniqueIff says.
