# Verified models of the download client's core

This project models the algorithms and protocols inside the Qt/libtorrent download client that
carry guarantees, and proves those guarantees for every input, every run and every interleaving.
`dafny verify dfyconfig.toml` checks all of it.

| file | what it models |
|---|---|
| `RingProtocol.dfy`, `RingCounters.dfy` | the lock-free queue of `ring_buffer.h` as a transition system: any number of producers, one consumer, one atomic access per step; and its 64-bit counters |
| `RingBuffer.dfy`, `LogStore.dfy` | the queue and the per-task log store as objects |
| `RssTypes.dfy`, `RssRuleEngine.dfy`, `RssDedup.dfy` | feed items, rule evaluation, the five-set duplicate index, history retention |
| `RssScheduling.dfy`, `RssService.dfy` | auto-download decisions, backlog, dispatch, markers, the item store |
| `RssPipeline.dfy`, `RssDownloads.dfy`, `AppController.dfy` | the download queues with their deferred pump, and the whole path from dispatch to settlement |
| `RssOutcomes.dfy` | what settlements, downloads, requests and pumps come to for a caller |
| `SessionWorker.dfy` | the promises of the session thread: magnet metadata, resume data, statistics |
| `BackupChain.dfy`, `LogRotation.dfy`, `LogQueue.dfy` | files that survive crashes; rotated log files; the queue of the log writer |
| `Utf8.dfy`, `QueryString.dfy`, `Bencode.dfy` | codecs, each against an independent definition of its format |
| `PeerTable.dfy`, `IpFilter.dfy` | the built-in tracker and the IP filter loader |
| `TaskStore.dfy` | the event-sourced task store, the alert mapper and the status lock |
| `Sequences.dfy`, `Bits.dfy`, `Arith.dfy` | selecting and ordering by position, bitwise operators, division |

Code that changes state is a class whose methods are tied to a function of the old state; the
theorems are lemmas about those functions and about runs made of them. Where several threads or
event handlers interleave, the same functions are the steps of a machine, and the theorems hold
after every run of it.

## What the proofs found

Each of these is a place where the code does less than its comments or names suggest. The model
follows the code.

- The ring buffer's `static_assert` admits `Capacity == 1`, and there a second push overwrites the
  first unread item. `SafeExactlyFromCapacityTwo` proves that two is the exact bound.
- `PushImpl` casts both counters to a signed type before it subtracts. The subtraction leaves the
  signed range exactly when an odd multiple of 2^63 lies between them (`RawDiffInRange`). A producer
  that sleeps while its slot moves on by 2^63 to 2^64 tickets takes the queue for full
  (`VerdictsSurviveWrapping`).
- `Size`, `PeekAt` and `PeekLatest` compare the unsigned counters. They are right exactly while head
  and tail are on the same lap of `size_t`; until the tail has wrapped too, a queue with items in it
  looks empty (`SizesSurviveWrapping`).
- An RSS item with an empty id never gets its download slot back: the settlement returns early.
  With distinct ids a settlement frees the slot exactly when the id is not empty.
- Scoped duplicate keys of different feeds never collide, but an item without a feed can carry a
  key that spells out another feed's scope (`ForeignScopeIsMistaken`).
- A batch that is enqueued within one event into a queue at rest is worked off one item at a time
  whatever the in-flight limit is, because only the first enqueue posts a pump and a pump starts one
  item (`BatchIsSerial`).
- Requests are lost when a handler of the orchestrator is not set: without the start handler of a
  lane the pump closure of a finish drops its item, unsettled and unfinished, and without the settle
  handler a request refused at shutdown is never settled. Every run accounts for every request if
  and only if all three are set (`HandlersMatter`).
- A prepared magnet whose file list is unusable is reported as a failure but its info stays stored,
  exactly when the handle gives an info whose files cannot be used (`MisreportsExactly`). A finalize
  then submits it (`MisreportedIsSubmitted`, `FailedPrepareIsSubmitted`).
- A resume-data save that begins while alerts of an earlier save are outstanding counts those as its
  own and answers early (`AnswerIsLastExactlyWithoutOverlap`, and `OverlapAnswersEarly` for the
  shortest run).
- A write can leave no backup although two versions have been committed. With a .bak it does so
  exactly when the .bak was removed, neither copy went through, and no old .bak2 is left; without
  one, exactly when there is no .bak2 either and the copy was refused (`LosesExactly`, for every
  pattern of refusals and crashes). One refused copy can be enough (`OneRefusalMayLose`). While no
  copy is refused there is always a backup (`CopiesSuffice`).
- `isValidUtf8` accepts surrogate code points, which RFC 3629 (section 4) forbids, and nothing else
  beyond the RFC.
- A log line that finds the writer queue full is dropped, or if urgent written by its caller. So the
  file misses a line exactly when a line that is not urgent met a full queue
  (`NothingMissingExactly`), and it is out of order exactly when a caller wrote its line while an
  earlier one was still pending or after a later one had been written (`FileInOrderExactly`). A
  caller that writes at once overtakes every pending line (`PromptFallback`, `UrgentLineOvertakes`).
- The status lock relies on a wall clock that does not go back (`LockedExactly`,
  `ClockSetBackUnlocks`).

## Model

Members of a module are written `Module.Member`; methods of a class `Module.Class.Method`.

| member | source | states |
|---|---|---|
| RingProtocol.StepInv | src/base/ring_buffer.h:73-189 | every atomic step of every thread keeps the ownership invariant of slots, tickets, scans and verdicts |
| RingProtocol.NoCellRace | src/base/ring_buffer.h:73-189 | in every reachable state no two threads are about to touch the same cell, and tickets in use never exceed the capacity |
| RingProtocol.SlotOwnership | src/base/ring_buffer.h:166-189 | each ticket of the window is free, owned by exactly the producer that claimed it, or published |
| RingProtocol.PopsArePrefixOfPushes | src/base/ring_buffer.h:73-98 | the k-th pop returns the item of the push that won ticket k: nothing lost, duplicated or reordered |
| RingProtocol.PublishedIsNotOverwritten | src/base/ring_buffer.h:166-189 | a published item stays in its cell until the consumer takes it, whatever step comes next |
| RingProtocol.PushVerdictExact | src/base/ring_buffer.h:169-187 | at its sequence load a push is rejected exactly when its head is current and a whole capacity of tickets is out |
| RingProtocol.RetryMeansProgressElsewhere | src/base/ring_buffer.h:169-187 | a producer goes round again only because another producer won the ticket it was after |
| RingProtocol.PopVerdictExact | src/base/ring_buffer.h:73-96 | a pop returns nothing exactly when the next ticket is unpublished, and the consumer's retry branch is never reached |
| RingProtocol.PopAnswersItsItem | src/base/ring_buffer.h:81-88 | in every reachable state the pop that took ticket k answers with the item of the push that won it, which is what the history of pops records |
| RingProtocol.PushAnswersItsTicket | src/base/ring_buffer.h:176-181 | the push that won a ticket reports success, with its own item published under that ticket |
| RingProtocol.UndisturbedPop | src/base/ring_buffer.h:73-98 | from every reachable state a pop left alone returns the item of the next ticket if it is published, and otherwise nothing, changing nothing |
| RingProtocol.UndisturbedPush | src/base/ring_buffer.h:166-189 | from every reachable state a push left alone gets the next ticket while there is room, and otherwise is rejected, changing nothing |
| RingProtocol.PeekVerdictExact | src/base/ring_buffer.h:114-138 | in every reachable state a look of a scan is within the queue, takes an item exactly when its ticket is published at the sequence load, and then the item of the push that won it |
| RingProtocol.SizeReadExact | src/core/log_store.h:71-73 | a snapshot will look at min(max, size) tickets, and counts as settled exactly those of them that are published when it has read the size |
| RingProtocol.SnapshotIsOrderedAndComplete | src/core/log_store.h:55-84 | a scan looks at the oldest min(max, size) tickets of the size it read, and yields, in ticket order, a subsequence of their items that holds everything published when it began; all of them when producers are quiet |
| RingProtocol.CapacityOneOverwrites | src/base/ring_buffer.h:40-41 | with capacity one a run exists in which the second push replaces the first item before it was popped |
| RingProtocol.SafeExactlyFromCapacityTwo | src/base/ring_buffer.h:40-41 | pops match pushes in every run if and only if the capacity is at least two |
| RingCounters.SignedDiffExact | src/base/ring_buffer.h:77-79 | the 64-bit signed difference of wrapped tickets equals the unbounded one exactly within half the range |
| RingCounters.RawDiffInRange | src/base/ring_buffer.h:169-174 | subtracting after the casts stays in the signed range exactly when no odd multiple of 2^63 lies between the counters |
| RingCounters.MaskSelectsSlot | src/base/ring_buffer.h:75-76 | masking a wrapped counter with capacity - 1 selects the slot of the unbounded ticket |
| RingCounters.VerdictExact | src/base/ring_buffer.h:77-93 | the three-way test sees zero exactly for tickets congruent modulo 2^64, and a negative difference exactly for a distance in the upper half of that range |
| RingCounters.VerdictsSurviveWrapping | src/base/ring_buffer.h:77-187 | in every reachable state the test of pop sees the unbounded difference, and that of push if and only if the slot is less than 2^63 ahead of the local head; from 2^63 to 2^64 ahead it says full where a retry is due |
| RingCounters.WrappedSizeExact | src/base/ring_buffer.h:114-159 | comparing the unsigned counters gives head - tail on the same lap of size_t, and zero when the head alone has wrapped |
| RingCounters.SizesSurviveWrapping | src/base/ring_buffer.h:114-159 | in every reachable state the size a snapshot reads, and the one PeekAt checks its index against, is right if and only if head and tail are on the same lap |
| RingBuffers.RingBuffer.constructor | src/base/ring_buffer.h:48-60 | the initial sequence numbers make every slot free for the first lap and the queue empty |
| RingBuffers.RingBuffer.Push | src/base/ring_buffer.h:66-71 | appends, or refuses exactly when the queue holds its capacity |
| RingBuffers.RingBuffer.TryPop | src/base/ring_buffer.h:73-98 | takes the oldest item, or nothing exactly when the queue is empty |
| RingBuffers.RingBuffer.TryPopBatch | src/base/ring_buffer.h:100-112 | takes exactly the oldest min(n, size) items in order |
| RingBuffers.RingBuffer.PeekAt | src/base/ring_buffer.h:114-138 | shows the i-th item exactly when there is one and changes nothing |
| RingBuffers.RingBuffer.PeekLatest | src/base/ring_buffer.h:144-153 | shows the youngest item |
| RingBuffers.RingBuffer.Size | src/base/ring_buffer.h:155-159 | the number of queued items |
| LogStores.LogStore.Append | src/core/log_store.h:39-47 | the entry is queued or counted as dropped, for its own task only |
| LogStores.LogStore.Snapshot | src/core/log_store.h:55-84 | the oldest min(n, size) entries |
| LogStores.LogStore.DroppedCount | src/core/log_store.h:86-94 | the number of dropped entries of the task |
| LogStores.LogStore.Clear | src/core/log_store.h:96-131 | empties one task's queue and counter and touches no other task |
| LogStores.KeepsOldestCountsRest | src/core/log_store.h:39-131 | over any history of calls a task keeps its oldest entries since the last clear and counts every later one as dropped |
| RssRuleEngine.Evaluate | src/core/rss/rss_rule_engine.cc:19-62 | a rule matches exactly the items it covers: feed, any include keyword, no exclude keyword |
| RssRuleEngine.RefusedExactly | src/core/rss/rss_rule_engine.cc:19-62 | a rule refuses an item for exactly three reasons: its feed is not listed, no include keyword occurs, an exclude keyword does |
| RssRuleEngine.FindFirstEnabledMatch | src/core/rss/rss_rule_engine.cc:74-86 | the first enabled covering rule, or none exactly when no enabled rule covers the item |
| RssDedup.ScopeKeysCollide | src/core/rss/rss_dedup.cc:34-42 | when two scoped keys are equal: same feed and key, or one feedless key that spells out the other's scope |
| RssDedup.IndexIsExact | src/core/rss/rss_dedup.cc:46-106 | the five-set lookup answers exactly whether some indexed item clashes by id, or within its feed by guid, link, normalised URL or infohash |
| RssDedup.ForeignScopeIsMistaken | src/core/rss/rss_dedup.cc:34-42 | without the separator condition the lookup reports a duplicate that is none |
| RssDedup.FilterIsExact | src/core/rss/rss_dedup.cc:108-129 | filtering keeps, in order, exactly the items that clash with no existing and no earlier kept item |
| RssDedup.RepeatedIsDropped | src/core/rss/rss_dedup.cc:84-129 | an arriving item is dropped exactly when a stored one has its id, or in its feed its guid, link, normalised torrent address or magnet hash |
| RssDedup.FilterKeepsClean | src/core/rss/rss_dedup.cc:108-129 | appending the filtered items to a list without clashes gives a list without clashes |
| RssDedup.Dedup.BuildIndex | src/core/rss/rss_dedup.cc:46-62 | the index of exactly the given items |
| RssDedup.Dedup.RecordItem | src/core/rss/rss_dedup.cc:64-82 | the incrementally kept index equals the one built over the longer list |
| RssDedup.Dedup.IsDuplicate | src/core/rss/rss_dedup.cc:84-106 | the five lookups in the sets |
| RssDedup.Dedup.KeepFresh | src/core/rss/rss_service.cc:477-496 | deduplicating incoming items leaves the index current for the grown list |
| RssDedup.FilterDuplicates | src/core/rss/rss_dedup.cc:108-129 | the loop computes the kept items |
| RssDedup.PruneHistory | src/core/rss/rss_dedup.cc:131-171 | every dropped item is too old and not downloaded, or ranks behind all that stay when the cap is full; nothing too old stays |
| RssDedup.RetentionOutcome | src/core/rss/rss_dedup.cc:131-171 | a downloaded item goes only when the cap is full of downloaded ones; below the cap only items past the age go; a dated item within the age never goes before an older or undated one of its kind |
| RssServices.RssService.DiagnoseItem | src/core/rss/rss_service.cc:690-747 | only decision and reason change; the reason is the first of the eight checks that applies, eligible exactly when the item would be auto-downloaded, and the decision is failed exactly without a callback |
| RssServices.RssService.RebuildBacklog | src/core/rss/rss_service.cc:581-621 | the backlog lists the newest candidates up to the cap, newest first, ties in any order |
| RssServices.RssService.ApplyOverflowMarkers | src/core/rss/rss_service.cc:527-550 | exactly the eligible items outside the tracked backlog are marked |
| RssServices.RssService.SyncWaitlist | src/core/rss/rss_service.cc:623-643 | exactly the backlog entries at rank free slots or later are waitlisted |
| RssServices.RssService.DownloadItem | src/core/rss/rss_service.cc:379-442 | all five outcomes on the first item with the id, and the request that is delivered |
| RssOutcomes.DownloadOutcome | src/core/rss/rss_service.cc:379-442 | the first item with the id is queued and its request delivered if and only if it names a resource, is not queued and there is a callback; decision and reason tell the outcomes apart; nothing else changes |
| RssOutcomes.RequestNamesItem | src/core/rss/rss_service.cc:419-433 | a request carries the id, feed, title, magnet and torrent address of its item |
| RssOutcomes.RequestFollowsRule | src/core/rss/rss_service.cc:402-429 | save path, category and tags are those of the first enabled rule that covers the item, and empty if there is none |
| RssOutcomes.RequestRefersToFeed | src/core/rss/rss_service.cc:394-431 | the referer is the address of the item's feed, and empty for an unknown feed |
| RssServices.RssService.ApplyRssDownloadSettlement | src/core/rss/rss_service.cc:344-377 | the settlement of RssOutcomes on the item list, with the resolved path unless that is blank |
| RssOutcomes.SettlementOutcome | src/core/rss/rss_service.cc:344-377 | a success marks the one item with the id downloaded, accepted, not queued, with its path and no retries; a failure only unqueues it and counts a retry; no other item changes |
| RssOutcomes.DownloadedStaysOut | src/core/rss/rss_service.cc:690-706 | a downloaded item is never eligible, a candidate or started again, whatever later diagnoses and rules say |
| RssOutcomes.SettledLeavesBacklog | src/core/rss/rss_service.cc:581-621 | so no backlog after a successful settlement holds its item |
| RssServices.RssService.DispatchDeferredAutoDownloads | src/core/rss/rss_service.cc:645-688 | starts exactly the first min(batch, free slots, backlog) entries of the newest-first backlog and delivers their requests in order; nothing without the callback; whatever the ids, the queued count stays at or below max(previous, clamped limit) |
| RssServices.RssService.RefreshAutoDownloadDiagnostics | src/core/rss/rss_service.cc:552-558 | min(cap, eligible) items stay eligible, no overflow-marked item is newer than a tracked one, and max(0, tracked - free) are waitlisted |
| RssServices.RssService.PruneItemsWithoutMatchingFeed | src/core/rss/rss_service.cc:52-75 | keeps, in order, exactly the items of known feeds, and those without a feed only while there are no feeds |
| RssServices.RssService.ApplySettings | src/core/rss/rss_service.cc:502-517 | every number that holds afterwards is the nearest one within bounds, the player command is trimmed, and settings that need no change are kept exactly |
| RssServices.RssService.LoadState | src/core/rss/rss_service.cc:31-50 | no item is queued or waitlisted, every item belongs to a feed, the index is current whatever the file holds, the settings are the stored ones brought within bounds, and a clean file gives a clean store, from which the download path may start if every item has an id |
| RssServices.RssService.ClearItemsForFeeds | src/core/rss/rss_service.cc:190-203 | exactly the items of the given feeds go; the index stays current, no duplicate comes in, and a sound store is edited as the download path allows |
| RssServices.RssService.RemoveFeed | src/core/rss/rss_service.cc:159-176 | exactly the feed goes, and its items and orphans; the index stays current, no duplicate comes in, and a sound store is edited as the download path allows |
| RssServices.RssService.PruneHistory | src/core/rss/rss_service.cc:467-475 | the cap holds, the number removed is returned; the index stays current, no duplicate comes in, and a sound store is edited as the download path allows |
| RssServices.RssService.RefreshFeed | src/core/rss/rss_service.cc:268-314 | exactly the new items are appended in order before orphans go; the index is current again on every path; a clean store stays clean if the arrivals carry no separator where a scope could be mistaken, and with parsed items (unqueued, with ids) it is edited as the download path allows |
| RssServices.RssService.RefreshAllFeeds | src/core/rss/rss_service.cc:224-234 | over any number of feeds every item was there before or was fetched, the index stays current and the cap holds; under the same conditions the store stays clean and is edited as the download path allows |
| RssServices.RssService.ReloadItemStreamFromEnabledFeeds | src/core/rss/rss_service.cc:236-258 | the same after the items of enabled feeds were dropped first |
| RssServices.RssService.StoreSurvives | src/core/rss/rss_service.cc:344-442 | every operation that keeps the entries leaves the index current for the changed items and a clean store clean |
| RssServices.StoreIsEdit | src/core/rss/rss_service.cc:159-314 | deletions and refreshes that leave no duplicates keep ids unique and bring in no queued item, which is what the download path asks of an edit |
| RssScheduling.BacklogMembers | src/core/rss/rss_service.cc:581-621 | no backlog entry is downloaded, ignored or queued, none appears twice, and the cap holds |
| RssOutcomes.BacklogIsByDate | src/core/rss/rss_service.cc:602-621 | no backlog entry stands behind one published earlier, none left out was published later than one that is in, and none is left out below the cap; an undated item counts as published in 1970 |
| RssScheduling.DispatchOutcome | src/core/rss/rss_service.cc:645-688 | the loop with its re-checks and re-lookups equals starting the first entries of the backlog |
| RssOutcomes.DispatchStartsEligible | src/core/rss/rss_service.cc:645-688 | a dispatch starts an item only if it was neither downloaded nor ignored, names a resource and was last diagnosed as eligible |
| RssScheduling.QueuedStaysBounded | src/core/rss/rss_service.cc:645-688 | dispatch never takes the number of queued items above max(previous number, clamped concurrency limit) |
| RssScheduling.DispatchWithoutCallback | src/core/rss/rss_service.cc:645-688 | without a callback no request is delivered |
| RssScheduling.OverflowKeepsTracked | src/core/rss/rss_service.cc:527-550 | after the overflow pass exactly the tracked items are eligible and every marked one is no newer than any of them |
| RssOutcomes.OverflowOutcome | src/core/rss/rss_service.cc:527-550 | the overflow pass changes an item only by marking it as skipped for the length of the backlog |
| RssScheduling.EligibleAfterOverflow | src/core/rss/rss_service.cc:527-558 | the number of eligible items is min(cap, eligible before) |
| RssScheduling.WaitlistCount | src/core/rss/rss_service.cc:623-643 | the number of waitlisted items is max(0, tracked - free) |
| RssPipeline.NoLostWakeUp | src/app/rss_download_pipeline.cc:11-119 | in every interleaving of any number of calls: one pump on its way exactly when the flag is set, items start once and in order, the counter equals unfinished starts, and a queued item never waits with nothing under way |
| RssPipeline.StartsRespectTheLimit | src/app/rss_download_pipeline.cc:86-119 | a step starts an item if and only if it is a pump that finds one queued and fewer than the current limit in flight, and then it is the oldest |
| RssPipeline.LimitIsLastSet | src/app/rss_download_pipeline.cc:11-19 | that limit is the one last set, at least one, and eight until one is set |
| RssPipeline.ClosuresMatchCalls | src/app/rss_download_pipeline.cc:21-119 | in every interleaving no more pumps carry the closure of an enqueue, or of a finish, than there were such calls |
| RssPipeline.EverythingStarts | src/app/rss_download_pipeline.cc:11-119 | if starts finish, every run comes to rest within a bounded number of steps with all enqueued items started in order |
| RssPipeline.BatchIsSerial | src/app/rss_download_pipeline.cc:54-119 | a batch that reaches a resting queue within one event, at any time, runs one item at a time whatever the limit, until something else is enqueued |
| RssPipeline.RssDownloadPipeline.EnqueueMagnet | src/app/rss_download_pipeline.cc:21-27 | queued last; a pump is posted exactly when none was scheduled |
| RssPipeline.RssDownloadPipeline.FinishMagnet | src/app/rss_download_pipeline.cc:38-44 | the counter drops, not below zero; a pump is posted exactly when none was scheduled |
| RssPipeline.RssDownloadPipeline.PumpMagnetQueue | src/app/rss_download_pipeline.cc:86-101 | below the limit the oldest item leaves the queue and counts as in flight, otherwise nothing is taken; the flag is cleared |
| RssPipeline.RssDownloadPipeline.SetRssTorrentMaxInFlight | src/app/rss_download_pipeline.cc:16-19 | the limit is at least one |
| RssPipeline.RssDownloadPipeline.EnqueueRssTorrentUrl | src/app/rss_download_pipeline.cc:29-36 | the same on the torrent fields |
| RssPipeline.RssDownloadPipeline.FinishRssTorrent | src/app/rss_download_pipeline.cc:46-52 | the same on the torrent fields |
| RssPipeline.RssDownloadPipeline.PumpRssTorrentUrlQueue | src/app/rss_download_pipeline.cc:103-119 | the same on the torrent fields: below the limit the oldest item is taken, otherwise nothing |
| RssDownloads.HandlersMatter | src/app/rss_download_orchestrator.cc:11-72 | every run accounts for every request, outstanding once or settled once and finished once, if and only if the settle handler and both start handlers are set |
| RssDownloads.StepInv | src/app_controller.cc:836-1179 | every event keeps the lanes in order, the requests partitioned and every queued item covered |
| RssDownloads.NoLeakedSlot | src/app_controller.cc:836-920 | in every run before shutdown each queued item has a request queued or in flight, across any edits of the items; clearing, pruning, removing and refreshing are such edits (EditOf in the contracts of RssService) |
| RssDownloads.SettledAndFinishedOnce | src/app_controller.cc:886-1179 | each request is outstanding once, or settled once and finished once, on every path and across shutdown |
| RssDownloads.EverySlotComesBack | src/app_controller.cc:836-1179 | left to itself the system comes to rest in boundedly many events, with every request settled and no item queued |
| RssDownloads.SettlementNeedsAnId | src/core/rss/rss_service.cc:344-362 | a settlement frees the item's slot if and only if the id is not empty |
| RssDownloads.EmptyIdLeaks | src/app_controller.cc:852-859 | a complete run after which an item without an id stays queued for good |
| RssDownloads.DispatchIsARun | src/core/rss/rss_service.cc:645-688 | the dispatch loop is a run of download events with the same items and one request for each delivery |
| RssDownloads.DeferredDispatchIsARun | src/core/rss/rss_service.cc:645-688 | a whole dispatch, with the diagnosis before its loop and the marker passes after it, is a run of edits and downloads |
| RssOutcomes.DeliveredTicket | src/app_controller.cc:836-850 | a delivered download becomes the last request of the magnet queue, with the current limit set first, or else of the torrent queue; during shutdown none |
| RssOutcomes.MagnetOutcome | src/app_controller.cc:886-920 | a magnet pump settles the oldest request, as a success if and only if the magnet is valid and shutdown has not begun |
| RssOutcomes.TorrentOutcome | src/app_controller.cc:1045-1064 | a torrent pump begins to fetch the oldest request if there is an address and shutdown has not begun, and settles it as failed otherwise |
| RssOutcomes.FetchOutcome | src/app_controller.cc:1105-1172 | the end of a fetch settles its request by how it went |
| RssOutcomes.RefusalOutcome | src/app/rss_download_orchestrator.cc:18-57 | a request that an enqueue's pump may not start, for shutdown or for want of a start handler, is finished, and settled as failed if and only if there is a settle handler |
| RssOutcomes.DropOutcome | src/app/rss_download_orchestrator.cc:27-73 | without a start handler a finish's pump takes a request that is then neither settled nor finished |
| AppControllers.AppController.OnDownloadRequest | src/app_controller.cc:1867-1886 | magnet before torrent URL, nothing during shutdown |
| AppControllers.AppController.EnqueueMagnet | src/app_controller.cc:836-850 | the limit is set before the request is queued |
| AppControllers.AppController.StartOneMagnetOnUi | src/app_controller.cc:886-920 | settles and finishes within the event on every path |
| AppControllers.AppController.StartOneRssTorrentUrlOnUi | src/app_controller.cc:1045-1074 | settles and finishes at once, or hands over to one fetch |
| AppControllers.AppController.OnPumpMagnet | src/app/rss_download_orchestrator.cc:18-36 | a posted magnet pump is the machine's step, with the closure it was posted with |
| AppControllers.AppController.OnPumpRssTorrent | src/app/rss_download_orchestrator.cc:38-57 | a posted torrent pump is the machine's step |
| AppControllers.AppController.OnTorrentFetched | src/app_controller.cc:1105-1172 | the end of a fetch settles and finishes its request |
| SessionWorkers.NoPromiseSetTwice | src/lt/session_worker.cc:126-503 | in every interleaving of commands and alerts no promise is set twice, and one still held has not been set |
| SessionWorkers.PrepareOutcome | src/lt/session_ops_add.cc:72-115 | a prepare is answered with nothing at once, and leaves no trace, if and only if its URI is bad or its torrent is active; otherwise it waits under its key and nobody is answered |
| SessionWorkers.LookOutcome | src/lt/session_worker.cc:126-165 | a look answers the waiting prepare if and only if the handle has its metadata: with the info if there is one with usable files, with nothing otherwise |
| SessionWorkers.OtherOutcomes | src/lt/session_worker.cc:433-471 | which of the other steps answer whom, and with what |
| SessionWorkers.ActiveExactly | src/lt/session_ops_add.cc:117-150 | a torrent is active if and only if it was added and since then neither removed, cancelled nor finalized with its info at hand |
| SessionWorkers.PendingExactly | src/lt/session_ops_add.cc:97-128 | a promise waits under a key if and only if a prepare with it was accepted, and since then came no other prepare, no metadata, no failure and no cancel of the key |
| SessionWorkers.PreparedExactly | src/lt/session_ops_add.cc:72-176 | an info is at hand under a key if and only if a look stored it and neither cancel nor finalize of the key came since |
| SessionWorkers.FinalizeSubmits | src/lt/session_ops_add.cc:130-176 | a finalize submits the torrent exactly then, and otherwise does nothing |
| SessionWorkers.SuccessCanBeFinalized | src/lt/session_worker.cc:126-165 | a prepare that reports success has stored that info, so an undisturbed finalize submits |
| SessionWorkers.AnsweredAtTheLastAlert | src/lt/session_worker.cc:475-504 | a save is answered by the alert that makes up the number of torrents asked, not before, with the number of files written |
| SessionWorkers.MisreportedIsSubmitted | src/lt/session_worker.cc:126-165 | in every run, a prepare that told its caller nothing came although it stored the info is submitted by an undisturbed finalize |
| SessionWorkers.MisreportsExactly | src/lt/session_worker.cc:126-165 | that happens, for a key without an info, if and only if the handle gives an info whose files cannot be used |
| SessionWorkers.FailedPrepareIsSubmitted | src/lt/session_ops_add.cc:72-176 | the run of prepare, look and finalize that answers nothing and adds the torrent |
| SessionWorkers.AnswerIsLastExactlyWithoutOverlap | src/lt/session_ops_control.cc:274-292 | at that alert as many alerts are outstanding as were when the save began, so none exactly when saves do not overlap |
| SessionWorkers.OverlapAnswersEarly | src/lt/session_ops_control.cc:274-292 | a second save of the same torrent is answered by the alert of the first, with its own still to come |
| SessionWorkers.SessionWorker.OnPrepare | src/lt/session_ops_add.cc:72-115 | rejected at once for a bad URI or an active task, else pending under its key |
| SessionWorkers.SessionWorker.OnCancel | src/lt/session_ops_add.cc:117-128 | forgets handle, info and pending entry, and sets no promise |
| SessionWorkers.SessionWorker.OnFinalize | src/lt/session_ops_add.cc:130-176 | uses up the stored info |
| SessionWorkers.SessionWorker.TryFulfillPendingMagnetMeta | src/lt/session_worker.cc:126-165 | answers and removes the pending entry in all three outcomes, storing the info first |
| SessionWorkers.SessionWorker.PollPendingMagnetMetadata | src/lt/session_worker.cc:167-190 | exactly the pending keys that have their metadata are resolved, their infos stored and their promises answered, whatever the order of the loop |
| SessionWorkers.SessionWorker.OnMetadataFailed | src/lt/session_worker.cc:462-471 | answers and removes the pending entry |
| SessionWorkers.SessionWorker.OnSaveAll | src/lt/session_ops_control.cc:274-292 | counts the valid handles; answers zero at once when there is none |
| SessionWorkers.SessionWorker.OnResumeAlert | src/lt/session_worker.cc:475-504 | one alert counted, the promise set and released when the count is reached |
| SessionWorkers.SessionWorker.OnStatsAlert | src/lt/session_worker.cc:433-454 | the pending promise is set and released |
| BackupChain.PrimaryIsLastCommit | src/base/io.cc:99-111 | whatever fails and whenever the process dies, the primary is the last commit and versions never increase along the chain |
| BackupChain.LosesExactly | src/base/io.cc:99-111 | a write, complete or cut short, with any calls refused, leaves no backup of two or more committed versions if and only if, with a .bak present, it was removed, neither copy went through and no .bak2 is left; or, without .bak and .bak2, the copy was refused |
| BackupChain.AlwaysABackup | src/base/io.cc:99-111 | in every run a backup exists between any two calls from the second commit on, if and only if no write has lost it in that way |
| BackupChain.CopiesSuffice | src/base/io.cc:99-111 | a run in which no copy is refused always has one |
| BackupChain.OneRefusalMayLose | src/base/io.cc:99-111 | one refused copy is enough in a second write or before a crash, and harmless where the .bak2 was copied |
| BackupChain.RefusedCopiesLoseBackups | src/base/io.cc:99-111 | two refused copies leave only the primary, whatever was there |
| BackupChain.CompleteWriteShifts | src/base/io.cc:99-111 | a complete write moves the primary to .bak and .bak to .bak2 |
| BackupChain.OneLossIsRecoverable | src/base/io.cc:99-129 | losing any one file at any moment leaves a usable version |
| BackupChain.ReadWithRecovery | src/base/io.cc:113-129 | the newest readable non-empty version, or none exactly when there is none |
| BackupChain.Storage.WriteWholeFileWithBackup | src/base/io.cc:99-111 | the calls of the plan in order, whatever the system refuses |
| LogRotation.RotationKeepsNewestLines | src/core/logger.cc:128-200 | whatever files an earlier process left, backups N..1 and the current file are the newest of the old and new lines in order; a file above the limit holds one line or was found so, and backups beyond N are not touched; if there was no gap, a line is lost only once all N exist |
| LogRotation.FirstStart | src/core/logger.cc:128-200 | from an empty file there are at most N backups, all present before a line is lost, and a file above the limit holds one line |
| LogRotation.WriteOutcome | src/core/logger.cc:128-166 | a line that fits is appended and nothing else changes; one that does not begins a new file |
| LogRotation.FilesAreFilled | src/core/logger.cc:128-166 | after any lines no file was closed too early: the first line of its successor did not fit |
| LogRotation.NoRotationKeepsAll | src/core/logger.cc:149-154 | without a limit or backups the lines are appended to the file that was found |
| LogRotation.RotationShifts | src/core/logger.cc:168-200 | removing the last and renaming downwards is a shift by one, with gaps kept |
| LogRotation.LogFile.RotateFiles | src/core/logger.cc:168-200 | the loop of removals and renames performs that shift |
| LogRotation.LogFile.WriteTextLine | src/core/logger.cc:128-166 | rotates exactly when the line would exceed the limit, then appends |
| LogQueue.QueueKeepsOrder | src/core/logger.cc:81-96 | accepted lines reach the file in order, none lost, a passed barrier has every line accepted before it written, and each refused line is counted |
| LogQueue.BarriersPass | src/core/logger.cc:202-250 | in every interleaving barriers are passed in the order they were asked for, and all have been once the queue has drained |
| LogQueue.FileInOrderExactly | src/core/logger.cc:327-350 | in every interleaving the whole file is in the order of the log calls if and only if each caller's own write fell between the lines offered before and after it |
| LogQueue.PromptFallback | src/core/logger.cc:341-349 | a caller that writes at once is in its place exactly when the full queue holds no line |
| LogQueue.NothingMissingExactly | src/core/logger.cc:86-95 | every line offered is in the file or on its way if and only if no line that is not urgent met a full queue |
| LogQueue.UrgentLineOvertakes | src/core/logger.cc:327-350 | after a burst that fills the queue an urgent line is first in the file though offered last, and a plain one is nowhere |
| LogQueue.Logger.TryEnqueueLine | src/core/logger.cc:86-95 | the line is queued, or the refusal counted exactly at the limit |
| LogQueue.Logger.TakeCommand | src/core/logger.cc:236-250 | the oldest command leaves the queue and is not yet carried out |
| LogQueue.Logger.ProcessOneCmd | src/core/logger.cc:202-234 | the line is appended, or the barrier passed |
| Utf8.IsValidUtf8 | src/base/text_encoding.cc:14-61 | true if and only if the bytes are the shortest-form encodings of code points up to U+10FFFF |
| Utf8.RoundTrip | src/base/text_encoding.cc:14-61 | decoding an encoded text gives back its code points |
| Utf8.UniqueDecomposition | src/base/text_encoding.cc:14-61 | no byte string encodes two different texts |
| Utf8.LaxExactlyOnSurrogates | src/base/text_encoding.cc:30-58 | accepted and allowed by RFC 3629 differ exactly on surrogates, each of which is accepted |
| QueryString.PercentDecodeQueryValue | src/core/builtin_http_tracker.cc:26-59 | the loop computes the decoder |
| QueryString.HexOutcome | src/core/builtin_http_tracker.cc:32-43 | the value of each hex digit, in either case |
| QueryString.MalformedEscapeStays | src/core/builtin_http_tracker.cc:26-59 | a percent sign without two hex digits stands for itself |
| QueryString.DecodeInvertsEncoding | src/core/builtin_http_tracker.cc:26-59 | decoding inverts every percent-encoding of every byte string, whichever bytes are escaped |
| QueryString.EscapeAll | src/core/builtin_http_tracker.cc:32-50 | every byte string has an encoding of this kind |
| QueryString.QueryParamRaw | src/core/builtin_http_tracker.cc:61-77 | the decoded value of the first piece that starts with the key |
| QueryString.SplitInvertsJoin | src/core/builtin_http_tracker.cc:61-77 | splitting gives back the pieces of any joined list |
| QueryString.QueryFindsFirst | src/core/builtin_http_tracker.cc:61-77 | a lookup in the query of any parameters finds the first value of that name |
| Bencode.EncodeAnnounceFailure | src/core/bencode_minimal.cc:13-21 | parses back to the reason with nothing left over |
| Bencode.EncodeAnnounceOk | src/core/bencode_minimal.cc:23-39 | parses back to its five fields with nothing left over |
| Bencode.OkEntriesByName | src/core/bencode_minimal.cc:23-39 | the five fields by their names, each with its own value |
| Bencode.DictRoundTrip | src/core/bencode_minimal.cc:5-39 | every dictionary of integers, negative ones too, and strings parses back and consumes exactly its bytes |
| PeerTables.PeerTable.Upsert | src/core/builtin_http_tracker.cc:94-107 | the map gets one record and keeps all others; ids stay distinct, buckets non-empty |
| PeerTables.PeerTable.Remove | src/core/builtin_http_tracker.cc:109-121 | the map loses one record; no empty bucket stays |
| PeerTables.PeerTable.Prune | src/core/builtin_http_tracker.cc:123-137 | exactly the records past the time to live go |
| PeerTables.CountsAddUp | src/core/builtin_http_tracker.cc:138-164 | complete and incomplete together count each peer with a non-negative amount left |
| PeerTables.PeerTable.CountComplete | src/core/builtin_http_tracker.cc:138-150 | the number of peers with nothing left |
| PeerTables.PeerTable.BuildCompactPeers | src/core/builtin_http_tracker.cc:166-194 | for every shuffle the reply decodes to distinct other peers, max(0, min(numwant, 50, others)) of them, six bytes each |
| PeerTables.CompactRoundTrip | src/core/builtin_http_tracker.cc:183-194 | the compact list decodes in network byte order to the addresses and ports |
| PeerTables.TrackerWorker.HandleAnnounce | src/core/builtin_http_tracker.cc:342-405 | the first complaint is answered and leaves the table alone; otherwise the table changes by the one peer and the reply parses to the counts and peers of the new table |
| PeerTables.ComplaintOutcome | src/core/builtin_http_tracker.cc:346-389 | an announce is refused if and only if its info hash, peer id, port, compact form or address is wrong, for the first of these |
| PeerTables.AnnounceOutcome | src/core/builtin_http_tracker.cc:391-397 | an accepted one records its own peer as of now, or forgets it when it stops, and nothing else |
| PeerTables.WantedOutcome | src/core/builtin_http_tracker.cc:372-399 | so many peers as asked for from 1 to 50, otherwise 50 |
| PeerTables.AgedOutcome | src/core/builtin_http_tracker.cc:123-137 | a record is forgotten if and only if it was last seen more than 45 minutes ago |
| PeerTables.ReplyOutcome | src/core/builtin_http_tracker.cc:399-405 | the reply by the names of its fields: the two intervals, complete and incomplete, and the peers |
| IpFilter.Ipv6ApplyPrefixRange | src/lt/ip_filter_loader.cc:22-42 | the bit loop over the bytes computes the 128-bit ends of the block, for every prefix |
| IpFilter.Block4 | src/lt/ip_filter_loader.cc:93-126 | the mask form computes the ends of the IPv4 block |
| IpFilter.BlockCovers | src/lt/ip_filter_loader.cc:22-42 | the range of a block holds exactly the addresses that share its leading bits |
| IpFilter.MemcmpIsNumeric | src/lt/ip_filter_loader.cc:152-198 | memcmp orders addresses by their numbers, so swapped ends are put right |
| IpFilter.Filter.AppendIpFilterLine | src/lt/ip_filter_loader.cc:212-247 | accepted exactly when the line means something, and then blocks exactly what it means |
| IpFilter.LineMeans | src/lt/ip_filter_loader.cc:212-247 | a line has a rule if and only if it is in one of three formats: address/prefix, two addresses of one kind around " - ", or one address |
| IpFilter.MeaningOutcome | src/lt/ip_filter_loader.cc:265-276 | blank lines and comments mean nothing, any other line what is left of it when trimmed |
| IpFilter.Filter.LoadIpFilterFile | src/lt/ip_filter_loader.cc:249-286 | an address is blocked if and only if some line of the file covers it |
| TaskStore.TaskStateStore.ApplyEvent | src/core/task_state_store.cc:15-194 | only the snapshot of the event's own task changes, by the rules of its kind |
| TaskStore.TextSet | src/core/task_state_store.cc:36-126 | metadata sets every text, labels included, a progress report all but path and comment, no other event one; an empty text leaves the field alone |
| TaskStore.NumberSet | src/core/task_state_store.cc:58-176 | metadata sets six numbers, a progress report all, a rate report the two rates; a negative number leaves the field alone |
| TaskStore.StatusSet | src/core/task_state_store.cc:83-183 | which events set status, message and availability |
| TaskStore.TimesSet | src/core/task_state_store.cc:26-194 | a task was added when its first event came and updated when its last one did |
| TaskStore.FinalSnapshot | src/core/task_state_store.cc:15-194 | a final snapshot is a function of the task's own events after its last removal |
| TaskStore.InterleavingIsFree | src/core/task_state_store.cc:15-194 | dated events may be interleaved freely across tasks |
| TaskStore.AlertReachesSnapshot | src/lt/task_event_mapper.cc:5-91 | mapper and store together carry exactly the set fields of each kind of alert, its status and its message into the snapshot |
| TaskStore.MappedExactly | src/lt/task_event_mapper.cc:5-91 | an alert becomes an event if and only if it names a task and is of a kind that says something about it, and keeps task and time; only a removal becomes a removal, only a duplicate a rejection, with its message |
| TaskStore.AlertsKeepLabels | src/lt/task_event_mapper.cc:5-91 | through any number of batches of alerts, mapped and passed through the locks, a task that none of them removes keeps its category and tags |
| TaskStore.EventIngestOrchestrator.LockProgressStatus | src/app/event_ingest_orchestrator.cc:11-14 | a new lock replaces the old one |
| TaskStore.LockedExactly | src/app/event_ingest_orchestrator.cc:11-46 | a task is locked until a time if and only if it was locked so, and since then neither locked anew nor reported on at or after that time |
| TaskStore.LockHoldsUntilItsEnd | src/app/event_ingest_orchestrator.cc:31-45 | with a clock that never goes back, the statuses of progress reports make no difference before the lock ends |
| TaskStore.LockedStatusStays | src/app/event_ingest_orchestrator.cc:11-46 | from the lock on, through any number of batches before its end, a task keeps its status whatever its progress reports say, until an event about the status itself, an error or a removal comes |
| TaskStore.ClockSetBackUnlocks | src/app/event_ingest_orchestrator.cc:35-45 | with a clock set back the lock is gone although its end lies ahead |
| TaskStore.EventIngestOrchestrator.Ingest | src/app/event_ingest_orchestrator.cc:17-59 | maps, passes the locks, applies in order, and reports removed and rejected tasks in order |

## Left out

- The Qt user interface and the interactive magnet dialogs: only RSS requests, which skip the dialog, go through the download path here.
- libtorrent, sockets, HTTP, XML, JSON and settings files: alerts, fetch results, parsed items and parsed addresses are arbitrary inputs.
- Weak memory: the ring buffer is modelled for sequentially consistent interleavings of single atomic accesses.
- RingBuffers.RingBuffer.Push: as an object the queue is sequential, one successful round per call; the retry loops under interference are in RingProtocol.
- RingCounters.VerdictsSurviveWrapping: what a producer does after a misjudged test is not followed further; RingProtocol's runs are those of unbounded tickets.
- LogStores.LogStore.Append: the per-task queue is a sequence, as the ring buffer's contract shows it; lock order and `shared_ptr` lifetime are not modelled.
- Regular expressions, keyword matching, trimming, infohash extraction and URL normalisation are parameters.
- `std::sort`, `std::partial_sort` and `std::shuffle` are used through what they promise; ties and shuffles are arbitrary.
- Timestamps such as the last attempt, feed titles and errors, log messages, and saving the state file.
- `upsertFeed`, the rule list, single-item marks and the per-feed diagnosis: they change no item's identity, or only one flag, except that `upsertFeed` with a new id can orphan items until the next prune.
- RssServices.RssService.LoadState: what the repository class reads is an argument.
- RssServices.RssService.RefreshFeed: for a store or arrivals that carry the separator the index is still exact, but a false duplicate is possible (RssDedup.ForeignScopeIsMistaken), so freedom from duplicates is promised for the others.
- RssDownloads.NoLeakedSlot: with the three handlers set, as the constructor of the controller does, and until shutdown only; from then on requests are refused by design, and an event posted to a window that is destroyed before delivery is not modelled.
- Magnets added by the user share the magnet queue and are not modelled; they occupy slots until their dialog ends.
- SessionWorkers.PrepareOutcome: the duplicate alert that a prepare of an active torrent also emits is not followed from there; as an alert it is one of those of TaskStore.
- SessionWorkers.NoPromiseSetTwice: claims at most once; a promise that a second prepare, save or statistics command replaces is never set, and its caller times out.
- SessionWorkers.AnswerIsLastExactlyWithoutOverlap: that libtorrent sends one alert for each torrent asked is its own promise.
- BackupChain.OneLossIsRecoverable: each file-system call is atomic; a copy torn by a crash is not modelled.
- LogRotation.RotationKeepsNewestLines: for one path and one policy, with removals and renames that succeed; a dated path that changes at midnight starts a new set of files.
- LogQueue.QueueKeepsOrder: reopen and flush commands carry no line and are left out; a flush is a barrier.
- LogQueue.UrgentLineOvertakes: the writes of callers and writer exclude each other by the file mutex, so each is one step; the rotation they may cause is LogRotation's subject.
- Bencode.DictRoundTrip: key order is the encoder's own and not claimed to be sorted; lists do not occur.
- QUrlQuery: port, compact, left, numwant and event reach the announce handler already read.
- PeerTables.PeerTable.BuildCompactPeers: a negative number wanted gives an empty list; the handler always passes a positive one.
- TaskStore.TaskStateStore.ApplyEvent: field groups are maps from field to value instead of thirty members, a missing key standing for the sentinel.
- Throttling, debouncing, path helpers, error tables and formatting: they would only add easy members.
