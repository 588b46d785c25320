# Lemonbot, verified

A Dafny model of the parts of Lemonbot in which a mistake costs money, loses or repeats a
message, or damages stored state, with proofs of what those parts promise.  Each module models
one component and keeps its branches, constants and error cases:

| module | component |
|---|---|
| `MapSums` | order-free sums over maps |
| `Budget` | prices, reservations and the spend limits of cloud model calls |
| `Ledger`, `LedgerGap` | the SQLite ledger behind the budget, one step behind memory, with crashes, and exactly how far the two can be apart |
| `WorkerProtocol`, `WorkerOutcomes` | the core-side proxies and the isolated text and vision workers behind a pipe, and which answer closes a call in which way |
| `WalFormat`, `WalSnapshot`, `WalAudit`, `WalOverlay`, `WalWriter` | SQLite write-ahead log parsing, auditing and page overlay, and that they read what a writer of the format wrote (SQLite Database File Format, sections 4.1, 4.2 and 4.5) |
| `WechatHistory`, `WechatPolling`, `WechatMultiplexer`, `WechatCycles`, `WechatDelivery` | message intake by paging and by one-shot slices, several targets in one cycle, and sending at most once |
| `OperationLock` | the lock and idle event that keep processing, polling, sending, resuming and probing apart |
| `MemoryStore`, `Derivation`, `Summaries`, `ContextSelection`, `ContextOrder` | memories, their supersession, prompt bounding, rolling summaries and context selection |
| `Alignment` | transcript alignment and hash-chained event ids |
| `Proactive` | scheduled jobs with a no-retry boundary |
| `Approvals` | one-time approvals and the execution they authorize |
| `Restore`, `RestoreOutcomes` | the atomic restore switch and its rollback, and what they leave for every fate of every rename |

Sequential code is modelled by classes and methods with the loops of the source, each proved
against a function or predicate; protocols whose steps interleave (`Ledger`, `WorkerProtocol`,
`OperationLock`, the runs of `Proactive`, `Approvals` and `WechatMultiplexer`) are state machines
over their atomic steps, and their theorems range over every sequence of steps.  A function named
`Next` is one such step and `Run` a whole run.  Times, clocks, random identifiers (fresh where the
source draws a name-free UUID), HTTP answers,
file system failures and model replies are parameters or nondeterministic choices.  Money is
modelled by real numbers.

## What the proofs found

Where a promise does not hold of the code as it is, the exact condition under which it does is
proved, in most cases with a concrete run that breaks it otherwise.

- A price table with a cached price above the input price lets a call inside its token bounds
  cost more than its reservation.  The hard cap holds over every run of in-bounds usage exactly if
  no such price lets one input token fit the daily limit (`Budget.CappedIff`).  The text proxy does
  not check reported usage against the reservation at all; the vision proxy does.
- The docstring of the ledger says it can overcount but never silently exceed the limit.  What
  recovery finds beyond memory is known exactly over every run (`LedgerGap.RecoveryCoversIff`).
  It falls short when the ledger update of an overcharged settlement is lost
  (`LedgerGap.LostOverchargeRun`), and under the new day when a restart reads one day and runs in
  the next, which books the old day's spend under the new one (`LedgerGap.MidnightRun`).
- The restore error always says that the active state was rolled back.  With every rename of the
  rollback done, this is true exactly if no save was interrupted between its rename and its flag,
  and no install onto a path that held nothing before (`RestoreOutcomes.ReportIsTrueIff`).  An
  install interrupted over a saved database is repaired, because the old one comes back on top, and
  so is one over saved objects if the staged directory is empty; one that is not empty makes the
  rollback fail, because a directory does not replace it.
  When the rollback itself fails, the state is as it was only if the last rename of the rollback
  took effect and was then interrupted (`RestoreOutcomes.RestoredIff`).  The saved database is
  deleted with the staging directory exactly if its save took effect and its way back did not
  (`RestoreOutcomes.DatabaseLostIff`).
- Paged polling and the one-shot slice disagree on a chat baselined empty that then gains 100 to
  999 rows: paging returns them, the slice reports lost anchors.
- The retrying poll of a conversation also retries, and so clears, a pause for a moved window
  that was already standing when it was called: it raises it again only if the window moves twice
  more, and over a steady service with readable rows it returns the events.  Every other standing
  pause is raised again (`WechatPolling.Connector.PollStable`).
- An acknowledged send is unique only among the newest page of messages: it is the only answer
  among all arrivals exactly while these fit one page (`WechatDelivery.UniqueIffWithinPage`).
- A scheduled job that is cancelled between its durable mark and the model call is sent all the
  same (`Proactive.CancelledIsStillSent`); no other closed job is ever sent again.
- Transcript alignment can silently lose items when an item repeats; it finds the first new item
  exactly if no longer suffix of the saved tail occurs in the window and the shared items occur in
  it once (`Alignment.WindowAlignsIff`).  An empty first snapshot makes the next one a baseline
  again.
- The truncation flag of a context is always set when memory hits repeat an id.
- The operation lock keeps everything apart exactly if the processing sections are kept apart by
  its callers (`OperationLock.NeverOverlapIff`), and closing the connector is safe exactly while no
  section runs: during one, a delivery can always start beside it (`OperationLock.SafeToCloseIff`).

## Model

| member | source | states |
|---|---|---|
| `Budget.ChargeWithinReservationIff` | src/lemonbot/models/budget.py:41-57 | every usage inside its reserved token bounds costs at most the reservation if and only if a cached token is no dearer than an input token (a cached price of 0 counting as the input price) or no prompt token was reserved |
| `Budget.UsageCostsAtMostBounds` | src/lemonbot/models/budget.py:41-57 | the half of that used by the cap: usage within bounds costs no more than the worst case |
| `Budget.ReserveCommits` | src/lemonbot/models/budget.py:149-196 | a reservation raises the commitment of exactly its own day and month by its amount |
| `Budget.DropUncommits` | src/lemonbot/models/budget.py:198-203 | a release lowers the commitment of exactly its own day and month by the reserved amount |
| `Budget.ChargeConserves` | src/lemonbot/models/budget.py:205-255 | a settlement moves the commitment by charged minus reserved and the spend by charged, under its own keys only |
| `Budget.StepCommits` | src/lemonbot/models/budget.py:149-255 | no operation lifts the commitment of a key above the larger of its limit and the old commitment plus what the settlement overcharged |
| `Budget.CapUpToExcess` | src/lemonbot/models/budget.py:149-255 | over every sequence of operations spend plus open reservations stays below max(limit, initial) plus the total overcharge, with no assumption on usage |
| `Budget.HardSpendCap` | src/lemonbot/models/budget.py:149-255 | over every sequence in which usage stays inside its bounds and no cached price exceeds its input price, no day or month is committed past max(limit, initial spend) |
| `Budget.DearCacheBreaksTheCap` | src/lemonbot/models/budget.py:52 | without the cached-price condition one call inside its bounds can spend twice the limit |
| `Budget.CappedIff` | src/lemonbot/models/budget.py:41-255 | from non-negative books with nothing open, every run of in-bounds usage stays within max(limit, initial spend) under every key if and only if no model with a cached price above its input price has one input token fit the daily limit |
| `Budget.OverrunBreaksTheCap` | src/lemonbot/models/budget.py:41-57 | for every policy with such a model, books and a run of one prompt token that end above the daily cap |
| `Budget.CostByToken` | src/lemonbot/models/budget.py:41-57 | token by token: nothing costs nothing, each completion, uncached and cached token costs its own price, and no more tokens are cached than the prompt has |
| `Budget.ZeroCachedPriceIsInputPrice` | src/lemonbot/models/budget.py:52 | a cached price of 0 charges cached tokens like any others |
| `Budget.ReservedIff` | src/lemonbot/models/budget.py:149-196 | a reservation is made exactly if the counts are not negative, the model has a price and the worst case fits both limits; else the first of these reasons is the error |
| `Budget.LifeOfACall` | src/lemonbot/models/budget.py:149-255 | what each key holds and has spent after reserving, and then after a release, a settlement and a settlement without usage; the other reservations stay |
| `Budget.BudgetManager.ReservedUnder` | src/lemonbot/models/budget.py:172-177 | the sum over open reservations of a key, in whatever order they are visited |
| `Budget.BudgetManager.ReserveCall` | src/lemonbot/models/budget.py:149-196 | admission against both limits with every error case; the only change is the new reservation |
| `Budget.BudgetManager.ReleaseCall` | src/lemonbot/models/budget.py:198-203 | an unknown id is an error; otherwise the reservation is dropped and nothing is charged |
| `Budget.BudgetManager.SettleCall` | src/lemonbot/models/budget.py:205-234 | the reservation is gone and the actual cost is booked; when the usage cannot be priced it is gone uncharged |
| `Budget.BudgetManager.SettleUnknownCall` | src/lemonbot/models/budget.py:236-255 | the whole reservation is booked |
| `Budget.BudgetManager.Snapshot` | src/lemonbot/models/budget.py:257-281 | reported spend and reservations add up to the commitment of the day and of the month |
| `Ledger.Table.InsertReservation` | src/lemonbot/models/persistent_budget.py:148-167 | a row is inserted as reserved, a taken id is refused |
| `Ledger.Table.UpdateSettlement` | src/lemonbot/models/persistent_budget.py:192-204 | the transition applies to exactly one reserved row or is an error and changes nothing |
| `Ledger.Table.InitializeAndRecover` | src/lemonbot/models/persistent_budget.py:80-136 | row by row, open reservations become fully charged and nothing else changes; the two totals are the recovered spend of the keys |
| `Ledger.LifeOfARow` | src/lemonbot/models/persistent_budget.py:138-204 | admitted, written, closed and written again, a row first holds the worst case as reserved and then the outcome of its closing; memory holds it no longer, and all else is as it was |
| `Ledger.TransitionErrorNeverFires` | src/lemonbot/models/persistent_budget.py:138-204 | over every interleaving of memory steps, ledger threads, failures, cancellations and crashes, with any charges, the "applied exactly once" error never occurs |
| `Ledger.CloseKeepsSlack` | src/lemonbot/models/persistent_budget.py:169-181 | closing a reservation books in memory exactly what the table will answer for |
| `Ledger.CrashSafety` | src/lemonbot/models/persistent_budget.py:80-204 | if no settlement charges more than it reserved, and no restart reads more than the table holds for the day and month it runs in, stopping anywhere recovers for every key at least what memory had spent plus every reservation a caller still held |
| `Ledger.CleanRecoveryIsExact` | src/lemonbot/models/persistent_budget.py:80-204 | after a restart and steps that lose no write, stopping with nothing outstanding recovers exactly what memory had spent |
| `Ledger.RecoveryChargesTheWorst` | src/lemonbot/models/persistent_budget.py:104-136 | recovery adds up every row at the worst it can still be charged |
| `LedgerGap.RecoveryGap` | src/lemonbot/models/persistent_budget.py:80-204 | in every consistent state recovery finds beyond memory exactly the slack, the open rows, and reserved minus charged of every outstanding update |
| `LedgerGap.RecoveryCoversIff` | src/lemonbot/models/persistent_budget.py:80-204 | over every run from an empty table, with any charges, losses, cancellations and restarts: recovery finds memory's spend plus the surplus of the late, lost and unpriced writes, the open rows and the outstanding updates, and covers memory exactly when that sum is not negative |
| `LedgerGap.SlackMoves` | src/lemonbot/models/persistent_budget.py:138-204 | what each step other than a restart adds to the slack |
| `LedgerGap.RestartGap` | src/lemonbot/models/persistent_budget.py:80-136 | after a restart the table holds what it held and memory what was read, so the gap is their difference |
| `LedgerGap.MidnightDuringRestart` | src/lemonbot/models/persistent_budget.py:58-86 | when the restart reads one day or month and runs in another, the new one is covered exactly if the one read had spent no more than the one run in |
| `LedgerGap.LostOverchargeIsNotRecovered` | src/lemonbot/models/persistent_budget.py:173-204 | losing one of any number of updates moves the slack by exactly reserved minus charged, and the update no longer offsets it |
| `LedgerGap.LostOverchargeRun` | src/lemonbot/models/persistent_budget.py:173-204 | a run from an empty table, without a restart, after which recovery finds less than memory spent |
| `LedgerGap.MidnightRun` | src/lemonbot/models/persistent_budget.py:58-86 | a run from an empty table that loses no write, after which the new day holds less in the table than in memory |
| `WorkerProtocol.VisionChargeWithinReservation` | src/lemonbot/models/vision_worker_proxy.py:284-300 | a metered vision settlement never charges more than its reservation, whatever the prices |
| `WorkerProtocol.TextChargeWithinReservationIff` | src/lemonbot/models/worker_proxy.py:318-327 | the text proxy does not bound reported usage: its metered charges stay within the reservation for every report only if tokens are free |
| `WorkerProtocol.ServeGenerate` | src/lemonbot/models/gateway.py:375-461 | at most one POST, where it falls relative to each error, a message that cannot be encoded after the reservation included, and no reply denies a POST that was made |
| `WorkerProtocol.ServeCommit` | src/lemonbot/models/vision_worker.py:243-267 | a vision commit posts at most once, falls back without a call when it may, and makes the worker close on every provider failure |
| `WorkerProtocol.VisionWorkerService.AnalyzeImage` | src/lemonbot/models/vision_worker.py:354-382 | an image becomes pending only if none was and preparation succeeded |
| `WorkerProtocol.VisionWorkerService.CommitImage` | src/lemonbot/models/vision_worker.py:384-413 | the pending image is consumed; a provider request is made at most once and only for the matching operation |
| `WorkerProtocol.EachReservationClosedOnce` | src/lemonbot/models/vision_worker_proxy.py:171-396 | under every interleaving of timeout, cancellation, crash and remote error: each reservation is closed at most once and exactly once when its operation is over; freed only if no provider call was made; at most one call per operation and only after its spend was reserved (both backends) |
| `WorkerProtocol.NeverCalledAfterFreed` | src/lemonbot/models/vision_worker_proxy.py:365-375 | a freed reservation stays call-free in every continuation of the run |
| `WorkerProtocol.QuietWheneverFree` | src/lemonbot/models/vision_worker_proxy.py:278-396 | whenever the lock is free and the worker not poisoned, every request was read, every reply consumed, no image waits, no closing task runs and every reservation is closed |
| `WorkerProtocol.RepliesAlwaysCorrelate` | src/lemonbot/models/vision_worker_proxy.py:193-208 | against this worker the correlation check never fails |
| `WorkerProtocol.ReceiveResultKeepsInv` | src/lemonbot/models/worker_proxy.py:396-426 | every way of receiving a result keeps the protocol invariant, the text proxy included |
| `WorkerProtocol.ClosingStepKeepsInv` | src/lemonbot/models/vision_worker_proxy.py:305-318 | leaving a critical transition, also by a second cancellation with its task detached, keeps the protocol invariant |
| `WorkerProtocol.TaskKeepsInv` | src/lemonbot/models/vision_worker_proxy.py:264-303 | a shielded budget task may run after its caller left, and closes the reservation once |
| `WorkerProtocol.ReserveKeepsInv` | src/lemonbot/models/vision_worker_proxy.py:343-361 | reserving and then committing keeps the protocol invariant, also when the worker is already seen to have exited |
| `WorkerOutcomes.ValidResultCloses` | src/lemonbot/models/vision_worker_proxy.py:279-303 | in every run a valid result frees the reservation exactly if no provider call was started; it meters it exactly if one was, some token was reported and, for vision, the usage is trusted and inside the estimate and the maximum output; else it charges in full |
| `WorkerOutcomes.OtherResultCloses` | src/lemonbot/models/worker_proxy.py:396-426 | an error frees the reservation if no call was started and charges in full if one was; an answer that does not correlate or validate charges in full and gives the worker up |
| `WorkerOutcomes.LostResultCloses` | src/lemonbot/models/worker_proxy.py:396-426 | a connection lost after the commit was sent charges in full and gives the worker up |
| `WorkerOutcomes.GoneWorkerCloses` | src/lemonbot/models/vision_worker_proxy.py:343-361 | a worker seen to be gone before the commit could be sent does the same |
| `WorkerOutcomes.DecidedClosureIsMade` | src/lemonbot/models/vision_worker_proxy.py:264-303 | in every continuation a reservation is closed in the way that was decided and in no other |
| `WorkerOutcomes.MeteredChargeIsPositive` | src/lemonbot/models/vision_worker_proxy.py:288-300 | under prices above 0 a metered charge is above 0 |
| `WorkerOutcomes.PreparedDecides` | src/lemonbot/models/vision_worker_proxy.py:320-341 | a prepared image is reserved for; a refusal frees the lock, and a fatal or unclear one gives the worker up |
| `WorkerOutcomes.ReserveDecides` | src/lemonbot/models/vision_worker_proxy.py:343-361 | reserving sends the commit; a refused budget ends the call, and the vision worker, which holds an image then, is given up |
| `WorkerOutcomes.CallGoesThrough` | src/lemonbot/models/vision_worker_proxy.py:171-396 | from every reachable free and healthy state a call goes through: one provider call, closed as metered, and the proxy free and healthy again |
| `WalFormat.ChecksumConcat` | scripts/agent_wechat_wal_snapshot.py:21-26 | checksumming in pieces, each seeded by the last, checksums the whole |
| `WalFormat.PageSizeTestIsPowerOfTwo` | scripts/agent_wechat_wal_snapshot.py:37 | the bit test accepts exactly the powers of two |
| `WalFormat.ExpectedNext` | scripts/agent_wechat_wal_snapshot.py:57-63 | the checksum a frame must store is its own block seeded by what its predecessor stores |
| `WalSnapshot.ComputeChecksum` | scripts/agent_wechat_wal_snapshot.py:21-26 | the loop computes the chained 32-bit sums |
| `WalSnapshot.CheckHeader` | scripts/agent_wechat_wal_snapshot.py:30-42 | the errors the 32-byte header decides, in order |
| `WalSnapshot.TakeFrame` | scripts/agent_wechat_wal_snapshot.py:51-63 | one frame continues the chain, switches to the zero seed, or is rejected with the right error |
| `WalSnapshot.CommittedPages` | scripts/agent_wechat_wal_snapshot.py:29-67 | the answer is the longest prefix of current-salt frames ending in a commit, each storing the checksum of header and frames (standard) or of frames alone (zero seed); otherwise the exact error |
| `WalAudit.AuditWal` | scripts/agent_wechat_wal_audit.py:26-68 | the full report of the auditor: status, valid frames, last commit, uncommitted frames and tail |
| `WalAudit.AuditAgreesWithParser` | scripts/agent_wechat_wal_audit.py:26-68 | on logs within both limits the parser succeeds in standard mode exactly when the audit says valid or recycled tail and all pages are in bounds, at the same commit; a zero-seed log fails its audit at the first frame |
| `WalAudit.SeedsMerge` | scripts/agent_wechat_wal_snapshot.py:58-63 | a zero-seed chain that shares its first checksum with a standard one is a standard chain |
| `WalOverlay.SnapshotFile.WriteAt` | scripts/agent_wechat_wal_snapshot.py:97-99 | a write changes exactly its range and leaves holes as zeros |
| `WalOverlay.ApplyPages` | scripts/agent_wechat_wal_snapshot.py:97-99 | after the write loop every byte is that of the last image covering it, or of the database |
| `WalOverlay.LastImageIsLastReadable` | scripts/agent_wechat_wal_snapshot.py:29-67 | the last committed image of a page is the last frame a reader may take it from |
| `WalOverlay.OverlayReads` | scripts/agent_wechat_wal_snapshot.py:97-100 | each byte of the overlay is what a reader of database and log together reads |
| `WalOverlay.Overlay` | scripts/agent_wechat_wal_snapshot.py:91-100 | the result has exactly the committed number of pages, each as the reader sees it |
| `WalOverlay.Snapshot` | scripts/agent_wechat_wal_snapshot.py:80-101 | success means an unchanged source and a faithful snapshot; every failure is the parser's or a source error |
| `WalWriter.HeaderAcceptedIff` | scripts/agent_wechat_wal_snapshot.py:30-42 | a header is accepted exactly for one of two magic numbers, the version, a page size that is a power of two from 512 to 65536, and stored sums that are those of its first 24 bytes: in little-endian words for 0x377F0682, in big-endian ones for 0x377F0683 |
| `WalWriter.ParserReadsWriter` | scripts/agent_wechat_wal_snapshot.py:29-67 | for every log written in either byte order and either seeding, with any leftover of an earlier log behind it, the parser returns exactly the pages up to the last commit, in order, with page size and committed size |
| `WalWriter.ReadBack` | scripts/agent_wechat_wal_snapshot.py:29-67 | the parser run on a written log |
| `WalWriter.AuditorReadsWriter` | scripts/agent_wechat_wal_audit.py:26-68 | for every written log the auditor counts exactly the written, committed and uncommitted frames, and the leftover |
| `WalWriter.BothOrdersAreRead` | scripts/agent_wechat_wal_snapshot.py:37-42 | for each magic number a log with one commit frame that the parser accepts |
| `WalWriter.SnapshotShowsWriter` | scripts/agent_wechat_wal_snapshot.py:80-101 | each page of a snapshot holds its last committed writing, or what the database holds if there is none |
| `WechatHistory.PagedSelectsArrivals` | src/lemonbot/connectors/wechat_agent.py:441-457 | over a still history paging selects exactly the rows that arrived since the anchors, unless 1000 or more did |
| `WechatHistory.PagedAgreesWithSlice` | src/lemonbot/connectors/wechat_agent.py:441-457 | with an anchor in reach, paging and the one-shot slice select the same rows exactly when only anchors lie between where each stops |
| `WechatHistory.ContiguousAnchorsAgree` | scripts/agent_wechat_metadata.py:458-483 | for non-empty contiguous anchors both select the rows ahead of them, and both report a loss when they are out of reach |
| `WechatHistory.BothLoseAnchors` | scripts/agent_wechat_metadata.py:467-469 | anchors outside the window are lost to both |
| `WechatHistory.EmptyAnchorsDisagree` | scripts/agent_wechat_metadata.py:467-469 | with no anchors at all the two disagree exactly on histories of 100 to 999 rows |
| `WechatPolling.Connector.Baseline` | src/lemonbot/connectors/wechat_agent.py:398-400 | a baseline anchors the newest page and starts a new run; a failure changes no anchor |
| `WechatPolling.Connector.GatherPages` | src/lemonbot/connectors/wechat_agent.py:441-457 | the page loop over a growing history; if nothing arrived it selects what paging selects, and a reported loss means 1000 arrivals |
| `WechatPolling.Connector.ReadNew` | src/lemonbot/connectors/wechat_agent.py:441-460 | the read is used only if the first page is unchanged at the end, and then holds exactly the arrivals |
| `WechatPolling.Connector.Poll` | src/lemonbot/connectors/wechat_agent.py:435-465 | exactly once: a successful poll takes in all rows since the last success, each one of this chat, none of them refused, and returns, oldest first, exactly the event of each that gives one (positions, contents and order); any other outcome pauses without moving the anchors, for a refused row only if there is one among the arrivals; over a steady service with well-marked rows, fewer than 1000 of them new and none refused, it does succeed |
| `WechatPolling.Connector.PollStable` | src/lemonbot/connectors/wechat_agent_conversation.py:299-311 | at most three reads; the anchors stay until one is stable; a standing pause is raised again unless it is for a moved window, which is cleared and comes back only if the window moves twice more |
| `WechatPolling.Connector.EventsFrom` | src/lemonbot/connectors/wechat_agent.py:467-472 | a baseline and any number of polls: in all exactly the event of every row that gives one between the baseline and the last successful poll, in order, until a pause |
| `WechatPolling.EventsOfGives` | src/lemonbot/connectors/wechat_agent.py:461 | rows none of which is refused give exactly the events of those that give one: strictly increasing positions, one for each such row, with its event; there is no answer exactly if a row is refused |
| `WechatPolling.GivesOneThing` | src/lemonbot/connectors/wechat_agent.py:461 | that determines the events |
| `WechatPolling.PageUsedIff` | src/lemonbot/connectors/wechat_agent.py:384-396 | a page is used exactly if it has at most 100 rows, all of this chat, with positive and different ids |
| `WechatPolling.ClearsMovedWindow` | src/lemonbot/connectors/wechat_agent_conversation.py:299-311 | a poll called with a moved-window pause standing returns events |
| `WechatPolling.RunAdvances` | src/lemonbot/connectors/wechat_agent.py:435-463 | a successful poll extends the run: everything received since the baseline is every arrival once, in order |
| `WechatPolling.KeepNew` | src/lemonbot/connectors/wechat_agent.py:448-452 | the row loop keeps exactly the rows that are neither anchors nor seen |
| `WechatMultiplexer.ConversationMultiplexer.DueTargets` | src/lemonbot/connectors/wechat_agent_conversation.py:560-563 | a cycle covers exactly the targets that are not paused, each once, in their order from the rotating start, which moves on by one |
| `WechatMultiplexer.ConversationMultiplexer.Poll` | src/lemonbot/connectors/wechat_agent_conversation.py:437-514 | one cycle over several targets: staged anchors are committed together, an abort commits none, a page that fails its checks ends the cycle without pausing the multiplexer, and a paused multiplexer changes nothing |
| `WechatMultiplexer.TargetsAreIsolated` | src/lemonbot/connectors/wechat_agent_conversation.py:465-512 | in a cycle that is not aborted each target fares exactly as it would alone |
| `WechatMultiplexer.OneShotSelectsArrivals` | scripts/agent_wechat_metadata.py:458-483 | from the newest page of an earlier history the slice selects exactly the arrivals, unless they are out of reach |
| `WechatMultiplexer.EachTargetExactlyOnce` | src/lemonbot/connectors/wechat_agent_conversation.py:437-566 | over every run of arrivals, polls, failures and resumes, what each target returned since its baseline is exactly the event of each of its oldest arrivals that gives one (positions, contents and order), none lost or repeated |
| `WechatMultiplexer.PolledTargetIsCaughtUp` | src/lemonbot/connectors/wechat_agent_conversation.py:465-514 | after a poll that raised nothing, every target it covered and left unpaused has taken everything that arrived since its baseline |
| `WechatMultiplexer.AnchorLostIffOutOfReach` | src/lemonbot/connectors/wechat_agent_conversation.py:471-477 | a healthy target loses its anchors exactly when 1000 rows arrived, or 100 on an empty baseline |
| `WechatMultiplexer.TakesUpToRefused` | src/lemonbot/connectors/wechat_agent_conversation.py:495-506 | rows are taken up to the first that is refused, and give exactly their events |
| `WechatCycles.PollFares` | src/lemonbot/connectors/wechat_agent_conversation.py:437-514 | one poll told from the arrivals and the answers: the first target with an unusable answer or a fatal row ends it with its reason, nothing returned and no anchor moved; it is refused if no target is left; else each target is read with all its events and new anchors, or paused for its own reason, after a refused row with the events before it |
| `WechatCycles.EveryPollFares` | src/lemonbot/connectors/wechat_agent_conversation.py:437-566 | in every run every poll of unpaused targets does that |
| `WechatDelivery.Sender.PostOnce` | src/lemonbot/connectors/wechat_agent.py:513-566 | the one POST of an id is remembered before it is made; an acknowledgement proves a new self-sent row with the text; the sender is paused after it exactly if the outcome is unknown; over a steady service it is acknowledged with the row it made |
| `WechatDelivery.Sender.Deliver` | src/lemonbot/connectors/wechat_agent.py:490-566 | a remembered id is answered from memory and never posted again; a refusal before the POST sends nothing; posted implies a receipt other than FAILED or a cancellation; over a steady service every message that passes its checks is posted and acknowledged with the row it made |
| `WechatDelivery.Sender.DeliverAll` | src/lemonbot/connectors/wechat_agent.py:474-566 | over every sequence of deliveries each id is posted at most once |
| `WechatDelivery.ReadbackProves` | src/lemonbot/connectors/wechat_agent.py:529-559 | one match on the newest page is a self-sent row that arrived after the page read before sending |
| `WechatDelivery.UniqueWithinPage` | src/lemonbot/connectors/wechat_agent.py:531-542 | while at most a page has arrived, the acknowledged row is the only answer in the whole history |
| `WechatDelivery.TwinBehindThePage` | src/lemonbot/connectors/wechat_agent.py:531-542 | past a page, for every number of arrivals, a history in which an older answer lies behind the newest page |
| `WechatDelivery.UniqueIffWithinPage` | src/lemonbot/connectors/wechat_agent.py:531-542 | for every number of arrivals: whatever is acknowledged is the only answer among them if and only if they fit one page |
| `OperationLock.TransportCallsNeverOverlap` | src/lemonbot/connectors/wechat_agent_runtime.py:103-207 | no two transport calls overlap, whatever happens |
| `OperationLock.NeverOverlapIff` | src/lemonbot/connectors/wechat_agent_runtime.py:103-207 | over every run not closed during a section: no two of processing section, poll, deliver, resume baseline and health are ever active together if and only if no two processing sections are |
| `OperationLock.NothingOverlaps` | src/lemonbot/connectors/wechat_agent_runtime.py:103-207 | the half of that used: with the sections apart nothing overlaps, whatever waits for the lock beside them |
| `OperationLock.SafeToCloseIff` | src/lemonbot/connectors/wechat_agent_runtime.py:209-214 | after any run that kept the sections apart, a close can never be followed by an overlap with the sections still apart if and only if no section runs at the close |
| `OperationLock.IdleIsRestored` | src/lemonbot/connectors/wechat_agent_runtime.py:129-141 | with the sections apart the idle event is clear exactly while one of them runs |
| `OperationLock.TwoSectionsOverlapWithPolling` | src/lemonbot/connectors/wechat_agent_runtime.py:129-141 | with two overlapping sections a poll can start beside the second |
| `OperationLock.CloseLetsDeliveryOverlap` | src/lemonbot/connectors/wechat_agent_runtime.py:209-214 | close sets the idle event, so a waiting delivery can start beside a running section |
| `OperationLock.IdleServes` | src/lemonbot/connectors/wechat_agent_runtime.py:103-207 | with no section and a free lock a poll, delivery, resume or health probe gets through its transport call and lets go of the lock, also when cancelled |
| `OperationLock.BusyTurnsAway` | src/lemonbot/connectors/wechat_agent_runtime.py:103-207 | under a running section a delivery goes back to wait, a poll, resume or health probe leaves, and the lock is free |
| `OperationLock.SectionComesAndGoes` | src/lemonbot/connectors/wechat_agent_runtime.py:129-141 | a section runs without the lock and the event is set again however it ends |
| `MemoryStore.InMemoryMemoryStore.Add` | src/lemonbot/memory/store.py:63-79 | an add is accepted, or refused with the first reason, and deactivates exactly what it supersedes |
| `MemoryStore.InMemoryMemoryStore.Get` | src/lemonbot/memory/store.py:81-94 | reads are scoped to the conversation |
| `MemoryStore.InMemoryMemoryStore.Search` | src/lemonbot/memory/store.py:112-143 | a limit outside 1 to 100 is refused; otherwise distinct active records of the scope and kinds that match a term or are commitments, best first, none left out that is ahead of one returned, and all of them if they fit the limit |
| `MemoryStore.InMemoryMemoryStore.SearchOne` | src/lemonbot/memory/store.py:112-143 | the search derivation makes, with no terms and one hit: a best-ranked active record of the scope and kind, and nothing only if there is none |
| `MemoryStore.SQLiteMemoryStore.Add` | src/lemonbot/memory/sqlite_store.py:124-176 | the transaction accepts, refuses and deactivates exactly as the in-memory add, and any failure leaves all rows as they were |
| `MemoryStore.SupersessionIsAForest` | src/lemonbot/memory/store.py:63-79 | whatever is added: supersession has no cycles, stays in one conversation, is at most one-to-one, and superseded records are inactive |
| `MemoryStore.AddKeepsLinks` | src/lemonbot/memory/store.py:67-79 | each add keeps every link pointing to an earlier inactive record of the same scope |
| `MemoryStore.AddOutcome` | src/lemonbot/memory/store.py:63-79 | an add goes through exactly if the id is free and every record it supersedes is an active one of its conversation; then it is stored as given, those are inactive and nothing else changed; else nothing changed and the error is that of the first record in the way |
| `Derivation.BoundedInput` | src/lemonbot/memory/derivation.py:131-185 | the prompt fits the cap; if all that enters fits it is just that, where a turn enters exactly if no earlier one has its id and the prior summary does not cover it or it is one of the last two; else it is a part of it that keeps the last two and sheds one end (the newer middle with a summary, the oldest without), and that gives up the prior summary or cuts a text only with just the last two left |
| `Derivation.LongestIndex` | src/lemonbot/memory/derivation.py:178-180 | the first turn of greatest length |
| `Derivation.BoundedInputIsSound` | src/lemonbot/memory/derivation.py:131-185 | on success the prompt and output fit; the turns are an order-preserving subsequence without repeated ids, texts at most cut and marked; the final exchange is kept |
| `Derivation.FirstFittingIsReturned` | src/lemonbot/memory/derivation.py:155-173 | the first candidate that fits is returned: fewest turns shed, prior summary kept |
| `Derivation.PriorIsGivenUpLast` | src/lemonbot/memory/derivation.py:171-185 | the prior summary goes only when no shedding fits, and texts are cut only after that |
| `Derivation.OverflowMeansNothingFits` | src/lemonbot/memory/derivation.py:178-185 | an overflow means the final exchange did not fit even with every text at most 32 characters |
| `Derivation.ClipCuts` | src/lemonbot/memory/derivation.py:184 | cutting again removes the old marker with the text, so a text is marked at most once |
| `Derivation.BoundedInputSends` | src/lemonbot/memory/derivation.py:131-185 | the same as a property of the specification, by positions in the conversation |
| `Derivation.EnteringTurns` | src/lemonbot/memory/derivation.py:142-154 | which turns enter, by position |
| `Derivation.FirstFittingCutIsReturned` | src/lemonbot/memory/derivation.py:178-185 | texts are cut no more often than needed, the longest first |
| `Derivation.ClipHalves` | src/lemonbot/memory/derivation.py:184 | what is left of a text is its first half and the marker |
| `Summaries.MemoryDerivationService.AddIdempotently` | src/lemonbot/memory/derivation.py:212-221 | an identical record of the conversation is returned unchanged, otherwise it is added |
| `Summaries.MemoryDerivationService.Derive` | src/lemonbot/memory/derivation.py:223-357 | whatever ranks the search: nothing is stored unless the call is well posed, the prompt fits and there is a reply; then each grounded item is held with its own kind, text and sources and nothing ungrounded is, up to one that cannot be added; and a rolling call, with no prior summary or one that stayed in the prompt, stores its summary with the sources of the prior one and then the prompt, without repeats, in the place of the prior one, which becomes inactive |
| `Summaries.SummaryTakesOver` | src/lemonbot/memory/derivation.py:311-356 | a summary that is not blank and whose id is free becomes the one active summary of its conversation, and the prior one is inactive |
| `Summaries.RollOutcome` | src/lemonbot/memory/derivation.py:311-356 | the summary record a rolling call makes, and when it is refused or left as it is |
| `Summaries.AddItemsOutcome` | src/lemonbot/memory/derivation.py:276-309 | grounded items are held, new records are those of grounded items, and a stop means the next one cannot be added |
| `Summaries.UniqueKeepsFirsts` | src/lemonbot/memory/derivation.py:277 | repeats are removed by keeping first occurrences in order |
| `Summaries.RolledKeepsChain` | src/lemonbot/memory/derivation.py:311-356 | a rolled summary supersedes the active one and covers its sources and its own prompt |
| `Summaries.ItemsKeepSummaries` | src/lemonbot/memory/derivation.py:276-309 | derived facts never touch a summary |
| `Summaries.RollingSummaries` | src/lemonbot/memory/derivation.py:223-357 | over every sequence of calls there is at most one active summary per conversation, each covers exactly its predecessor's sources and its prompt, and every source traces to a prompt of its chain |
| `ContextSelection.Build` | src/lemonbot/memory/context.py:79-164 | every refusal in order, the one for a system message of another role included, else the greedy bundle |
| `ContextSelection.PickHits` | src/lemonbot/memory/context.py:127-140 | the loop keeps each memory whose prompt still fits |
| `ContextSelection.PickTurns` | src/lemonbot/memory/context.py:145-149 | the loop prepends each turn, newest first, whose prompt still fits |
| `ContextSelection.Deduplicate` | src/lemonbot/memory/context.py:98-103 | the first turn of each id and none of the current one |
| `ContextSelection.StableSortIsStable` | src/lemonbot/memory/context.py:100-123 | sorting keeps tied items in their order |
| `ContextSelection.ContextIsSound` | src/lemonbot/memory/context.py:79-164 | the context fits its budget; turns are a chronological subsequence without repeats; memories are among the hits |
| `ContextSelection.SelectionIsMaximal` | src/lemonbot/memory/context.py:127-149 | for a monotone counter any omitted memory, and any omitted turn put back in its chronological place, would overflow |
| `ContextSelection.TruncationFlagIsExact` | src/lemonbot/memory/context.py:158-163 | for distinct hits the flag says exactly whether something was left out |
| `ContextSelection.RepeatedHitsAlwaysFlagged` | src/lemonbot/memory/context.py:153-163 | for hits with a repeated id the flag is always set |
| `ContextSelection.MergeHits` | src/lemonbot/memory/context.py:201-206 | the service hands the builder distinct hits with the ids of both searches, the first of each id |
| `ContextOrder.SelectionIsGreedy` | src/lemonbot/memory/context.py:127-149 | for every counter: a memory is kept exactly if the prompt with those kept before it and itself fits, a turn exactly if the prompt with all chosen memories, itself and the kept newer turns fits |
| `ContextOrder.HitsAreOfferedInOrder` | src/lemonbot/memory/context.py:113-125 | commitments are offered first, then by score, importance and age, the highest first; ties keep their order |
| `ContextOrder.TurnsAreOfferedInOrder` | src/lemonbot/memory/context.py:98-103 | turns are offered in time order, the first of each id and none with the current one |
| `ContextOrder.OmittedAreCounted` | src/lemonbot/memory/context.py:151-164 | omitted turns are the ids that were there to be had and are not in the context; omitted memories likewise for distinct hits |
| `Alignment.AlignTail` | src/lemonbot/connectors/wechat_atspi.py:119-136 | the two nested searches compute the alignment |
| `Alignment.AlignIsLongestUnique` | src/lemonbot/connectors/wechat_atspi.py:119-136 | an alignment is found exactly when the longest suffix of the tail occurring in the snapshot occurs once, and it ends there |
| `Alignment.AlignIsRightIff` | src/lemonbot/connectors/wechat_atspi.py:119-136 | for any transcript the first new item is found exactly when no longer suffix occurs and the shared items occur once |
| `Alignment.DistinctAligns` | src/lemonbot/connectors/wechat_atspi.py:119-136 | with distinct fingerprints an overlapping window aligns at the first new item and any other pauses |
| `Alignment.RepeatLosesItems` | src/lemonbot/connectors/wechat_atspi.py:119-136 | with a repeated item an overlapping window can align too late and lose items |
| `Alignment.AtspiObserveConnector.OnSnapshot` | src/lemonbot/connectors/wechat_atspi.py:177-226 | an unknown or changed target only pauses; any other is handled from its own cursor, and no other cursor moves |
| `Alignment.AtspiObserveConnector.EmitNew` | src/lemonbot/connectors/wechat_atspi.py:197-219 | the chain covers every new item, events only the others' messages, up to an unproven group sender |
| `Alignment.SnapshotOutcome` | src/lemonbot/connectors/wechat_atspi.py:177-226 | one snapshot: without an alignment nothing; else, from the first new item up to one whose group sender is unknown, each item is a link of the chain and exactly the others' messages are emitted with the chain up to them; if none stops it the last 100 fingerprints and the chain are saved, else the cursor stays |
| `Alignment.EmittedTells` | src/lemonbot/connectors/wechat_atspi.py:197-219 | the chain and the events by position |
| `Alignment.ChunkingIndependence` | src/lemonbot/connectors/wechat_atspi.py:177-226 | with proven senders and windows that each align, repeated items or not, the events after the baseline, ids included, are those of the items since, whatever the windows |
| `Alignment.WindowAlignsIff` | src/lemonbot/connectors/wechat_atspi.py:177-226 | a window aligns at its first new item if and only if no longer suffix of the tail saved by the window before occurs in it and the shared items occur in it once |
| `Alignment.DistinctIsWellCut` | src/lemonbot/connectors/wechat_atspi.py:177-226 | with distinct fingerprints every cut into overlapping windows aligns throughout |
| `Alignment.SameEventsForAnyCut` | src/lemonbot/connectors/wechat_atspi.py:177-226 | two ways to cut one transcript after one baseline into windows that align give the same events and chain |
| `Alignment.EmptyBaselineSwallowsNextWindow` | src/lemonbot/connectors/wechat_atspi.py:122-123 | after an empty first snapshot the next window is a baseline again and emits nothing |
| `Proactive.NextDueIsLeastGridPoint` | src/lemonbot/proactive/store.py:230-234 | the next due time is the smallest grid point from the old one that is later than now |
| `Proactive.LifeOfAnOccurrence` | src/lemonbot/proactive/store.py:160-301 | step by step from a due job: claimed, put off for half an hour, retried in five minutes while attempts are left, found again after a crash; marked; called once; finished at the next grid point or completed, and dead after any failure or crash from the mark on |
| `Proactive.ProactiveJobStore.Initialize` | src/lemonbot/proactive/store.py:101-116 | marked running jobs die, unmarked ones become pending |
| `Proactive.ProactiveJobStore.AddJob` | src/lemonbot/proactive/store.py:118-155 | a new job is pending, unattempted and unmarked, anything else or a taken id is refused |
| `Proactive.ProactiveJobStore.ClaimDue` | src/lemonbot/proactive/store.py:160-189 | the claimed job is due and first by due time and creation, and nothing else changes |
| `Proactive.ProactiveJobStore.MarkModelStarted` | src/lemonbot/proactive/store.py:197-219 | the mark is set on a running job, and reported again when already set |
| `Proactive.ProactiveJobStore.CompleteJob` | src/lemonbot/proactive/store.py:226-235 | completion applies to a running job only and sets its next due time |
| `Proactive.ProactiveJobStore.FailJob` | src/lemonbot/proactive/store.py:253-285 | a marked or exhausted job dies, another waits five minutes |
| `Proactive.ProactiveJobStore.CancelJob` | src/lemonbot/proactive/store.py:291-301 | pending and running jobs can be cancelled |
| `Proactive.ClaimsStartUnmarked` | src/lemonbot/proactive/store.py:160-189 | every claim starts without a mark |
| `Proactive.CallsAreMarked` | src/lemonbot/proactive/runner.py:92-95 | at every model call the durable row carries the mark of its present claim |
| `Proactive.NeverCalledTwice` | src/lemonbot/proactive/runner.py:44-128 | over all runs with crashes, failures and cancellations at any step no occurrence of a job is sent to the model twice |
| `Proactive.OneShotIsSentOnce` | src/lemonbot/proactive/runner.py:44-128 | over all runs a job without recurrence is sent to the model at most once, also when it was put off, failed early or recovered at another due time |
| `Proactive.MarkIsNoRetryBoundary` | src/lemonbot/proactive/store.py:100-116 | after the mark a job can only become completed, dead or cancelled, or pending by completing, due at the next grid point |
| `Proactive.MarkedIsNeverRetried` | src/lemonbot/proactive/store.py:100-116 | in every continuation of a run, crashes and restarts included, a marked occurrence is never claimable again at its due time |
| `Proactive.ClosedIsForEver` | src/lemonbot/proactive/store.py:226-301 | in every continuation a completed, dead or cancelled job never changes, and is never sent again unless it was cancelled between its mark and its call |
| `Proactive.CancelledIsStillSent` | src/lemonbot/proactive/runner.py:92-95 | a run in which a job cancelled between its mark and its call is sent |
| `Proactive.ProactiveRunner.RunOnce` | src/lemonbot/proactive/runner.py:44-128 | one pass takes the first due job if there is one, and says exactly how its row ends: put off, given up, cancelled, dead after the call, completed, or due at the next grid point; the model is called exactly if the checks pass and it was not cancelled before, once, for the job it claimed and marked |
| `Approvals.ApprovalRepository.Create` | src/lemonbot/approvals/repository.py:44-83 | creation is idempotent per binding; an id taken by another binding is an error |
| `Approvals.ApprovalRepository.ExpirePending` | src/lemonbot/approvals/repository.py:252-276 | exactly the overdue pending rows of the profile are denied, each with one audit entry |
| `Approvals.ApprovalRepository.Claim` | src/lemonbot/approvals/repository.py:123-156 | expiry first; an open unexpired request is claimed with a fresh token |
| `Approvals.ApprovalRepository.Deny` | src/lemonbot/approvals/repository.py:158-187 | expiry first; an open request is denied |
| `Approvals.ApprovalRepository.Resolve` | src/lemonbot/approvals/repository.py:189-228 | only the holder of the token resolves an executing request |
| `Approvals.ApprovalRepository.RecoverExecuting` | src/lemonbot/approvals/repository.py:230-250 | every interrupted execution of the profile becomes unknown |
| `Approvals.ExecuteApprovedTool` | src/lemonbot/runtime.py:236-363 | the tool is invoked exactly if every check passed and the execution record is new and marked, and then once; approved exactly when a committed result was persisted; denied exactly if a check failed before the record or the mark was lost and the last write still answered; once invoked never denied |
| `Approvals.ApprovalsAreOneShot` | src/lemonbot/approvals/repository.py:44-276 | over every interleaving each approval is claimed at most once and its tool invoked at most once; once invoked never denied; approved means invoked; audit entries are exactly the state path |
| `Approvals.BindingsStayUnique` | src/lemonbot/approvals/repository.py:68-81 | one exact action has at most one row for ever |
| `Approvals.TerminalIsForEver` | src/lemonbot/approvals/repository.py:189-228 | a terminal row never changes again and its tool is not invoked again |
| `Approvals.NextKeepsInv` | src/lemonbot/approvals/repository.py:44-276 | every operation keeps the lifecycle invariant |
| `Approvals.DecisionOutcomes` | src/lemonbot/approvals/repository.py:123-187 | row by row: a claim and a denial go through exactly for a pending request of the profile before its time; every request whose time has come is denied as expired; nothing else changes |
| `Approvals.LifeOfARequest` | src/lemonbot/approvals/repository.py:44-250 | step by step: created pending, claimed with its token, invoked once, resolved as reported or unknown after a restart, or denied, or expired, with the audit entries of that path |
| `Restore.FileSystem.Replace` | src/lemonbot/backup.py:270 | one atomic rename that may be refused, or interrupted after it took effect; a directory replaces an empty one and no other |
| `Restore.AtomicInstallRestore` | src/lemonbot/backup.py:254-300 | the switch with its flags and rollback, as specified for every outcome of every rename |
| `Restore.SwitchStops` | src/lemonbot/backup.py:268-284 | for every fate of every rename: the switch runs its plan up to the first rename that fails, knows exactly the ones before it as done, and everything else is where it was, but for an interrupted one |
| `RestoreOutcomes.InstalledIff` | src/lemonbot/backup.py:268-284 | success is reported exactly if every rename of the plan reported it, and leaves exactly the staged state |
| `RestoreOutcomes.RollbackUndoes` | src/lemonbot/backup.py:285-300 | for every fate of every rename: the rollback takes back what was done up to the first rename that fails or meets a staged directory that is not empty, and is complete exactly if there is none |
| `RestoreOutcomes.RestoredIff` | src/lemonbot/backup.py:254-300 | for every fate of every rename of the switch and the rollback: the active state is as it was if and only if the failed rename had no effect, or put a staged database, or an empty staged directory, where the old one came back, and every rename of the rollback took effect |
| `RestoreOutcomes.ReportIsTrueIff` | src/lemonbot/backup.py:298-300 | after a completed rollback the report is true if and only if no save was interrupted after it took effect and no install onto a path that held nothing before |
| `RestoreOutcomes.FalseReportLeaves` | src/lemonbot/backup.py:269-284 | a false report leaves the active state without the entry whose save was interrupted, or with a staged entry where there was none, and otherwise as it was |
| `RestoreOutcomes.WhereEntriesEnd` | src/lemonbot/backup.py:285-300 | where every entry is when it is over, also when the rollback was refused or interrupted; only a staged database or an empty staged directory can be overwritten, by the old one coming back |
| `RestoreOutcomes.SwitchIsAtomic` | src/lemonbot/backup.py:254-300 | with renames that may each be refused: success leaves exactly the staged state and no sidecars; a completed rollback leaves the active state exactly as it was and a failed one does not; no path overwrites or loses a file |
| `RestoreOutcomes.DatabaseLostIff` | src/lemonbot/backup.py:298-300 | after a failure the database is deleted with the staging directory if and only if its save took effect and its way back did not |
| `RestoreOutcomes.DoubleFailureLosesDatabase` | src/lemonbot/backup.py:298-300 | a second failure inside the rollback leaves the database in the directory that is then deleted |
| `RestoreOutcomes.InterruptedMoveLosesDatabase` | src/lemonbot/backup.py:269-271 | an interrupt between the first rename and its flag leaves nothing to roll back, and the database is lost |

## Left out

- HTTP, sockets, subprocess supervision, containers, keyrings, file permissions and the admin interface: plumbing, represented by nondeterministic outcomes.
- JSON, schema validation, HMAC, SHA-256, name-based UUIDs and zstd: abstract functions, with distinctness stated where a property needs it.
- Decimal rounding to 28 digits: amounts are exact reals.
- Time zones: day and month keys are given; `Budget` does not tie a month to its days.
- Ranking and full-text search in the memory stores: the score, and which terms a record matches, are arbitrary functions, and the refusal of a blank conversation is left out; the 500-row scan bound of the SQLite search is not modelled.
- Source event ids, confidence, model names and creation times of derived memories.
- The policy engine and the core repository: the runner and the approval executor take their answers as given.
- Thread jobs of the proactive store that commit after their caller was cancelled: each store call is one atomic step of the run.
- More than one proactive runner loop in a process: the service starts one.
- Notification waiting, reconciliation timing and the pause file of the conversation multiplexer, its delivery, which only forwards to a child, and the decryption and mention queries of the metadata bridge.
- The diagnostic callbacks, and the navigation guards of the message connectors, which are outcomes of one guard step.
- Frame codecs of the pipe: a message is in the pipe or it is not, and a write that fails half way is a failed call.
- The handshake that starts a worker: runs begin after it.
- A poll that is cancelled: it assigns neither anchors nor pause, so the next poll starts from the state before it.
- Observe-only delivery of the AT-SPI connector, which always answers FAILED.
- Archive validation and staging before the restore switch.
- WorkerProtocol.EachReservationClosedOnce: a budget call that raises is taken to have closed the reservation in memory first, as the budget manager does, so a ledger write that then fails is the subject of `Ledger` and not of this theorem.
- Ledger.CrashSafety: assumes restarts that read no more than the table holds for the day and month they run in, and settlements within their reservation, because both are needed (see `LedgerGap.MidnightRun` and `LedgerGap.LostOverchargeRun`); `LedgerGap.RecoveryCoversIff` needs neither.
- OperationLock.NothingOverlaps: assumes that the sections are kept apart and none runs at a close, because both are needed (see `OperationLock.NeverOverlapIff` and `OperationLock.SafeToCloseIff`).
- Alignment.ChunkingIndependence: assumes overlapping non-empty windows that align, because a window that aligns elsewhere loses or repeats items and an empty baseline swallows the next window.
- An interrupt of the switch that lands after its last progress flag, where no rename is left to make.
