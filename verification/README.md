# Argmax delivery, dedupe and bookkeeping, verified

Argmax's Rust core pushes what happens to its renderer through two bounded queues, and both sides keep small
protocols of their own: which toasts went out, which popup workspaces may be archived, which default agent
was saved last, which window shows which chat. This project models those protocols and proves what they
keep over every run.

| files | what they model |
|---|---|
| `DashboardHints`, `Delivery*`, `DashboardDelivery` | `dashboard:delta` delivery: any number of `send` calls, one worker, a bounded channel, byte permits, a resync flag and a generation counter |
| `TerminalOutput`, `TerminalWorker` | terminal pushes: coalescing a batch, and the worker that cuts the stream into batches |
| `BoundedMaps`, `Notifications`, `NotificationCallers`, `NotificationRaces`, `NotificationSilence` | the bounded maps in Rust and TypeScript, the notification service over them, and its overlapping callers |
| `DetailsPopup`, `DetailsPopupOwner`, `DetailsPopupWindows` | the details popup: launches, closes and the stray sweep, in one window and in several |
| `AgentSaves` | the promise chain that saves the default agent |
| `GitLog`, `GitLogProperties`, `GitLogGrammar`, `Decimal` | the `git log --numstat` parser |
| `ActivityStreaks`, `ActivityAggregates` | streaks, totals, series and cadence of the activity cards |
| `ChatWindows` | labels and the registry of torn-off chat windows |
| `Options`, `Sequences` | small shared pieces |

A protocol with concurrency is a state machine (`State`, `Action`, `Enabled`, `Next`, `IsRun`), and its
theorems quantify over every run. Where the program is imperative, a class with the program's own fields
follows it method by method; where a machine stands behind it, its ghost state is the machine's and each method
says which steps of the machine it takes, so that what is proved of runs holds of the class. Between two awaits the renderer is
one step; in the delivery protocol every single access to the flag, the generation, the permits and the
channel is a step of its own.

## What the code does not promise

The code is modelled as written. Where it falls short of its own comments, a theorem about every run says
exactly when, and a concrete run shows that it happens.

- **A delta can be lost** (`src-tauri/src/lib.rs:214`, `261`, `278`). A delta rejected for its generation is lost
  if nothing has told it and no resync is pending, owed or emitted since its call began; nothing else loses
  one. `DeliveryLosses.ACallIsLostExactlyWhereItIsDropped` says so step by step, `CaughtUpExactly` what it means
  for the reader, and `ALossNeedsALateBump` that it starts with the worker clearing the flag between the swap
  and the increment of a `require_resync` (lines 229-231). `DeliveryRaces.ALateBumpCanLoseADelta` is such a run.
- **A late bump also moves the fence.** `DeliveryGenerations` says exactly when a batch passes the final check
  in a retired generation, when an emission moves on without a resync, and when a parked delta is rejected:
  if and only if a bump came late between the reads concerned. `DeliveryRaces` has a run for each. That
  emissions never go back a generation holds in every run.
- **A wake can be drained** (`src-tauri/src/lib.rs:294-301`). A `require_resync` that runs to its end during
  the last drain raises the flag again and has its wake drained with the backlog.
  `DeliveryWakeup.StrandedMeansDrained` says that a pending resync is without a wake exactly then, until another
  `send` already under way brings one. `DeliveryRaces.AWakeCanBeDrained` is a run in which none does, and
  `AsleepForever` says that the worker then sleeps for good.
- Short of these, delivery is complete: `DeliveryProgress` shows that once every call has returned, the worker
  alone comes to rest within eight steps an item, exactly when its wake is assured, and that everything not
  lost as above has then been told.
- `DeliveryGrain` shows that all of this vanishes, and every promise holds in every run, once
  `require_resync` and the last drain are each indivisible.
- **Overlapping toasts** (`src-tauri/src/notifications.rs:98-116`). `NotificationRaces` says exactly when a toast is
  repeated and when a stamp is stale, and `NotificationSilence` which step makes a stamp lie, so that the next
  completion is silently turned away. Check failures have none of this.
- **A torn-off window archives another window's popup** (`src/renderer/App.tsx:1696-1712`). Every window sweeps,
  and the claimed ids are each window's own. `DetailsPopupWindows.AnotherWindowArchivesExactlyWhatItSweeps`
  says when; a window never archives its own.
- **An open window can lose its label** (`src-tauri/src/ipc/windows.rs:39`). A torn-off window that reports no
  chat is forgotten while it stays open, and its label can be given away.
  `ChatWindows.TheNextLabelIsInUseExactly` says when, and `BlockedUntilAWindowMoves` that opening then keeps failing.
- **Week buckets drift** (`src/renderer/demoActivity.ts:314`). The index divides by 168 hours while weeks start at
  local midnight, so a cut across a clock change counts some commits in a neighbour's bucket:
  `ActivityAggregates.CutsAreExactWhenEven`, and `PlacedByTimeExactly` commit by commit.
- **`undefined` pins the TypeScript map** (`src/shared/boundedSet.ts:66-67`). It is never evicted, and once it is
  the oldest key of a full map the bound is gone; `BoundedMaps.TsSetRefinesPut` is the exact condition. The type
  allows the key; the maps in `src/shared/safeJson.ts:25` and `src/renderer/lib/filePreview.ts:17` are keyed by
  string and cannot meet it.

## Assumptions

Serialized sizes, the focus probe, the sink's support and the outcome of a fire, a build or a call are
parameters. The backend never hands out a workspace or session id twice; every change of permission modes makes a
new object; the platform refuses a window under a label in use; only app windows report the chat they show.

## Model

| member | source | states |
|---|---|---|
| DashboardHints.Moves | src-tauri/src/lib.rs:164-169 | exactly the `session.moved` events stay inline |
| DashboardHints.SlimCommutesWithMerge | src-tauri/src/providers/flush_queue.rs:536-558 | slimming two full deltas and merging the slim ones gives what slimming their merge gives: conflating hints loses nothing that conflating rows would have kept |
| DashboardHints.SlimKeepsEveryInvalidation | src-tauri/src/lib.rs:143-181 | a session is named by the slim delta if and only if it was named or some row concerned it, a goal if and only if it was named; a move survives if and only if it was there; the dashboard flag is up if and only if it was, or there was a project, workspace, session, approval, pending message or removal; the resync flag is what it was |
| DashboardHints.MergeSaysJust | src-tauri/src/providers/flush_queue.rs:550-557 | a merged slim delta names the sessions and goals of its two sides and no others, carries the earlier side's moves and then the later side's, and has a flag up if and only if one side had |
| DashboardHints.LaterRowsComeLast | src-tauri/src/providers/flush_queue.rs:536-558 | merging full deltas keeps every row in arrival order, the later delta's after the earlier one's, and the later snapshot of a session's pending messages |
| DashboardHints.MergeCovers | src-tauri/src/providers/flush_queue.rs:550-557 | a merged delta tells a reader everything each of its two sides told |
| DeliveryProtocol.AdvanceFrame | src-tauri/src/lib.rs:138-241 | whatever step a `send` takes, it touches only its own call and at most appends one item; worker, parked item and emissions are untouched |
| DeliveryPermits.AdvanceBalance | src-tauri/src/lib.rs:198-225 | each step of a `send` moves bytes only between the free permits, its own reservation and the queue, and keeps the channel within 512 items |
| DeliveryPermits.PermitsAreConserved | src-tauri/src/lib.rs:69-70 | in every reachable state, free permits plus the bytes held by calls under way, the queue, the parked item and the item in hand equal 4 MiB, and the channel holds at most 512 items |
| DeliveryPermits.DrainedWindowFreesTheWholeBudget | src-tauri/src/lib.rs:251-301 | when every call has returned and nothing is live, the whole byte budget is free again |
| DeliveryBatches.ConflateStep | src-tauri/src/lib.rs:281-289 | conflating one more delta that fits keeps the batch the merge of its items and within the cap |
| DeliveryBatches.BatchesAreBuilt | src-tauri/src/lib.rs:271-293 | in every reachable state, the batch in hand and every emission are merges of items of one generation within the cap, and a parked item did not fit |
| DeliveryBatches.EmittedBatches | src-tauri/src/lib.rs:271-309 | every emitted delta says all that each of its items said, its items share its generation, and their bytes fit 256 KiB unless there is only one; an emission without items asks for a resync and says that the dashboard changed |
| DeliveryContent.AnEmissionSaysJustWhatItsItemsSay | src-tauri/src/lib.rs:271-309 | in every run, an emission names a session or goal if and only if one of its items does, and its moves are those of its items in their order |
| DeliveryContent.AResyncIsEmittedExactlyWhenAsked | src-tauri/src/lib.rs:244-310 | in every run, an emission asks for a resync if and only if the worker cleared the flag or took a wake since it started on it, or an item asks; the same of its dashboard flag |
| DeliveryBatches.ParkedItemDidNotFit | src-tauri/src/lib.rs:281-286 | an item parked behind a batch would have taken that batch over the cap |
| DeliveryOrder.WorkCutsLive | src-tauri/src/lib.rs:244-310 | a worker step removes at most one contiguous stretch of what is live, and nothing at all before the first overflow |
| DeliveryOrder.EmissionFollowsEnqueueOrder | src-tauri/src/lib.rs:686-706 | over every run, emitted items followed by what is in hand, parked and queued form a duplicate-free subsequence of enqueue order; until the first overflow they are the enqueue order exactly |
| DeliveryWakeup.ThePendingResyncWakesTheWorker | src-tauri/src/lib.rs:228-241 | a worker about to block with a resync pending finds an item queued or a wake on its way, in every run where no wake is drained by the last drain |
| DeliveryWakeup.AwakeUntilTheWakeIsDrained | src-tauri/src/lib.rs:228-302 | in any state with its wake assured, a step leaves a pending resync without one if and only if it drains the only wake there was |
| DeliveryWakeup.StrandedMeansDrained | src-tauri/src/lib.rs:228-302 | in every run, a pending resync is without a wake if and only if an earlier step drained the only one and none has come since; a worker that blocks on a pending resync is in that state |
| DeliveryWakeup.EveryClearIsAnswered | src-tauri/src/lib.rs:252-302 | in every run, the first delta emitted after the flag was cleared has both `resync_required` and `dashboard_changed` set |
| DeliveryFence.NothingStaleFollowsAResync | src-tauri/src/lib.rs:277-302 | emissions never go back a generation, every item carries its emission's generation, and a new generation is opened by a resync; in every run without a late bump |
| DeliveryFence.TheFinalCheckSeesOneGeneration | src-tauri/src/lib.rs:256-294 | a batch that passes the final check holds only items of the generation that is current at that moment; in every run without a late bump |
| DeliveryFence.TheParkedItemOpensTheNextBatch | src-tauri/src/lib.rs:687-694 | the delta that did not fit comes first in the next emission unless a resync replaces it; in every run without a late bump |
| DeliveryFence.NoInvalidationIsLost | src-tauri/src/lib.rs:138-310 | whenever a `send` has returned, its hints are in a delta emitted since it began, or its delta is queued, parked or in hand, or a resync has been emitted since, is owed or is pending; in every run without a late bump |
| DeliveryFence.CaughtUpMeansDelivered | src-tauri/src/lib.rs:686-762 | once the worker has caught up, every returned `send` was told to the reader since it began, by a delta covering it or by a resync; in every run without a late bump |
| DeliveryLosses.ACallIsLostExactlyWhereItIsDropped | src-tauri/src/lib.rs:138-310 | in every run, a step takes a call from accounted for (under way, told, on its way or excused) to unaccounted for if and only if it rejects its delta for its generation, at line 214, 261 or 278, untold and with no resync pending, owed or emitted since |
| DeliveryLosses.UnaccountedMeansLost | src-tauri/src/lib.rs:138-310 | in every run, a call is unaccounted for if and only if an earlier step lost it and nothing has made up for it since |
| DeliveryLosses.CaughtUpExactly | src-tauri/src/lib.rs:686-762 | in every run, once the worker has caught up, a returned `send` has been told since it began, by a delta or by a resync that also says the dashboard changed, if and only if no step lost it for good |
| DeliveryLosses.ALossNeedsALateBump | src-tauri/src/lib.rs:229-231 | in every run, nothing is lost before some generation was bumped after its flag had been cleared |
| DeliveryGenerations.GenerationsNeverGoBack | src-tauri/src/lib.rs:256-302 | in every run, emissions never go back a generation, each carries only items of its own, and none is ahead of the current one |
| DeliveryGenerations.HeldSinceRead | src-tauri/src/lib.rs:256-302 | in every run, the generation a delta is built under is the one at the worker's last read |
| DeliveryGenerations.TheFinalCheckExactly | src-tauri/src/lib.rs:256-294 | in every run, a batch that passes the final check is of the current generation if and only if no bump came late since its generation was read |
| DeliveryGenerations.TheFenceExactly | src-tauri/src/lib.rs:229-302 | in every run, an emission stays in its predecessor's generation or is a resync if and only if it is a resync or no bump came late between the two reads |
| DeliveryGenerations.TheParkedItemExactly | src-tauri/src/lib.rs:687-694 | in every run, the parked delta opens the next emission, unless a resync replaces it, if and only if no bump came late between the read of its batch and the next read |
| DeliveryGenerations.TimelyBumpIsAnswered | src-tauri/src/lib.rs:228-302 | in every run, a generation bumped while its flag is up is answered by a resync in the first emission whose generation is read after the bump |
| DeliveryProgress.RestsExactlyWhenAwake | src-tauri/src/lib.rs:686-762 | with every call returned, the worker left alone comes to rest with no resync pending if and only if its wake was assured |
| DeliveryProgress.RunOut | src-tauri/src/lib.rs:686-762 | every run goes on by worker steps alone until the worker blocks, within eight steps an item |
| DeliveryProgress.EverythingIsToldInTheEnd | src-tauri/src/lib.rs:138-310 | from any reachable state with every call returned and the wake assured, the worker alone comes to rest within that bound, and every call has then been told if and only if it was not lost for good |
| DeliveryProgress.CleanRunsTellEverything | src-tauri/src/lib.rs:138-310 | after any run without a late bump or a drained wake, once every call has returned the worker alone tells everything within that bound |
| DeliveryGrain.UndividedRunsAreClean | src-tauri/src/lib.rs:228-241 | where `require_resync` and the last drain each run undivided, no late bump and no drained wake can happen |
| DeliveryGrain.UndividedDeliveryIsSafe | src-tauri/src/lib.rs:228-302 | at that grain every run, without exception, keeps the wake-up, no-loss and fence promises |
| DeliveryRaces.TheLastDrainStrandsIffFlagged | src-tauri/src/lib.rs:294-302 | left alone in its last drain, the worker falls asleep on a pending resync if and only if the flag was raised again during the drain and no wake is still to come |
| DeliveryRaces.AsleepForever | src-tauri/src/lib.rs:139-141 | from such a sleep nothing is ever enqueued or emitted again |
| DeliveryRaces.AWakeCanBeDrained | src-tauri/src/lib.rs:294-301 | a concrete run reaches that sleep: two overflows around the final swap |
| DeliveryRaces.ALateBumpCanLoseADelta | src-tauri/src/lib.rs:229-240 | a concrete run in which a `send` returns, everything comes to rest, and no delta emitted since covers it or asks for a resync |
| DeliveryRaces.ALateBumpMovesTheFence | src-tauri/src/lib.rs:229-240 | a concrete run emits a new generation without a resync |
| DeliveryRaces.ALateBumpPassesTheFinalCheck | src-tauri/src/lib.rs:229-294 | a concrete run takes a batch of a retired generation past the final check |
| DeliveryRaces.ALateBumpRejectsTheParkedItem | src-tauri/src/lib.rs:229-261 | a concrete run rejects a parked delta with no resync in its place |
| DeliveryPaths.QuietSend | src-tauri/src/lib.rs:138-226 | an undisturbed `send` that finds room enqueues its delta under the current generation and reserves exactly its bytes |
| DeliveryPaths.QuietResync | src-tauri/src/lib.rs:228-241 | an undisturbed `require_resync` raises the flag, retires the generation if the flag was down, and queues a wake if there is room |
| DeliveryPaths.ReachedByRun | src-tauri/src/lib.rs:122-310 | every path of undisturbed calls is a run, so the imperative code inherits what is proved of runs |
| DashboardDelivery.Delivery.constructor | src-tauri/src/lib.rs:123-134 | a new delivery is the fresh state of the protocol |
| DashboardDelivery.Delivery.Send | src-tauri/src/lib.rs:138-226 | whatever others do while the delta is serialized, the call is turned away by a pending resync, gives up the window for want of room, is dropped when the flag or the generation has moved, or is queued under its own tag with exactly its bytes; always as a path of the protocol |
| DashboardDelivery.Delivery.Meanwhile | src-tauri/src/lib.rs:138-310 | any script of other sends and worker turns is a path of the protocol that leaves earlier calls and a busy worker alone |
| DashboardDelivery.Delivery.Settle | src-tauri/src/lib.rs:182-225 | from the reservation on: the four ways a call ends |
| DashboardDelivery.UndisturbedSend | src-tauri/src/lib.rs:138-226 | undisturbed, a call with room is queued with its bytes and tag; without room the budget is as before, the flag is up and the generation retired |
| DashboardDelivery.Delivery.RequireResync | src-tauri/src/lib.rs:228-241 | flag, generation, wake and permits after the call, as a path of the protocol |
| DashboardDelivery.Delivery.Drain | src-tauri/src/lib.rs:251-253 | draining empties the queue and gives back exactly the bytes it held |
| DashboardDelivery.Delivery.PrepareDashboardBatch | src-tauri/src/lib.rs:244-310 | a stale first item yields nothing; the batch, the parked item and what is still fresh in the queue are the fresh items in their order, and the batch ends only for want of items or room; an overflow before or since it was built replaces batch, parked item and queue by one delta with both flags set, and frees their bytes |
| DashboardDelivery.Delivery.FinalDrain | src-tauri/src/lib.rs:294-301 | the final swap and drain drops the parked item and the queue, gives back exactly their bytes, and leaves one delta without items, both its flags set |
| DashboardDelivery.Delivery.OpenBatch | src-tauri/src/lib.rs:251-270 | the batch opened by the first item, and when there is none |
| DashboardDelivery.Delivery.Conflate | src-tauri/src/lib.rs:271-293 | the loop keeps batch, parked item and fresh queue together in order, and parks only what exceeds the cap |
| DashboardDelivery.Delivery.TakeNext | src-tauri/src/lib.rs:276-292 | a wake and a stale delta are dropped, one that does not fit is parked, any other is merged |
| DashboardDelivery.Delivery.WorkOnce | src-tauri/src/lib.rs:686-762 | one turn takes the parked item before the queue, emits nothing if and only if that item is stale, and undisturbed neither loses nor reorders anything fresh; a pending resync is answered by a delta with both flags set |
| TerminalOutput.CoalescingPreservesMeaning | src-tauri/src/lib.rs:321-350 | for every batch and terminal, the coalesced batch reads as the same bytes in the same place relative to that terminal's exits |
| TerminalOutput.CoalescingIsMaximal | src-tauri/src/lib.rs:321-326 | between two exits of a terminal there is at most one data push of it |
| TerminalOutput.CoalescingKeepsExitOrder | src-tauri/src/lib.rs:343-346 | exits of all terminals keep their order |
| TerminalOutput.GoodAll | src-tauri/src/lib.rs:329-348 | every `open` entry indexes the last push of its own terminal, and that push is data, so the silent `if let` at line 334 never drops text |
| TerminalOutput.CoalescedActsAlike | src-tauri/src/lib.rs:327-350 | from any point of the stream a coalesced batch has the effect of the batch itself |
| TerminalOutput.CoalescingIgnoresCuts | src-tauri/src/lib.rs:327-350 | coalescing two parts, joining and coalescing again equals coalescing the whole; hence it is idempotent |
| TerminalOutput.CoalesceTerminalPushes | src-tauri/src/lib.rs:327-350 | the loop over the vector and the `open` map computes that fold, keeps every terminal's meaning and is maximal |
| TerminalWorker.TheWorkerIsLossless | src-tauri/src/lib.rs:912-977 | in every run and for every terminal, what was emitted, is in hand and is queued reads exactly as what was sent |
| TerminalWorker.BatchingDoesNotMatter | src-tauri/src/lib.rs:916-926 | two runs that emitted the same pushes agree once coalesced, however their streams were cut |
| TerminalWorker.EveryBatchIsCapped | src-tauri/src/lib.rs:917-925 | every emission is the coalescing of the cut the worker made for it; all but the last push of that cut hold less than 256 KiB of output; the cuts in order are what was sent first, and at most 64 pushes wait |
| TerminalWorker.TextIsWhatIsPrinted | src-tauri/src/lib.rs:312-318 | the output in a batch that concerns one terminal is what that terminal's reader sees printed |
| TerminalWorker.Channel.TrySend | src-tauri/src/lib.rs:967-977 | a producer adds its push at the end when fewer than 64 wait, as one step of the stream, and otherwise waits |
| TerminalWorker.Channel.WorkOnce | src-tauri/src/lib.rs:916-926 | one turn emits, coalesced, a prefix of the queue that without its last push holds less than 256 KiB of output; it leaves something queued only if it holds at least that much |
| TerminalWorker.Channel.NothingIsLost | src-tauri/src/lib.rs:912-977 | between two turns, what the channel has emitted and what it holds reads as everything ever sent, for each terminal |
| BoundedMaps.EveryRunIsBounded | src-tauri/src/notifications.rs:265-308 | after any inserts, updates and removals the keys are distinct, the bound holds, and what is present carries its key's last insert with no removal since |
| BoundedMaps.EvictionTakesTheOldest | src-tauri/src/notifications.rs:289-299 | a key disappears on an insert if and only if the inserted key is new, the map is full, and the key is the longest resident |
| BoundedMaps.KeysStandInOrderOfArrival | src-tauri/src/notifications.rs:289-307 | after any inserts, updates and removals the keys stand in the order in which they last took up residency: an update keeps its key's place and a removal closes the gap |
| BoundedMaps.AKeyLeavesExactly | src-tauri/src/notifications.rs:289-307 | after any operations, one more makes a key leave if and only if it removes that key, or inserts a new one into a full map of which that key is the longest resident |
| BoundedMaps.HashBoundedMap.constructor | src-tauri/src/notifications.rs:276-283 | a new map is empty |
| BoundedMaps.HashBoundedMap.Get | src-tauri/src/notifications.rs:285-287 | looks the key up in the abstract dictionary |
| BoundedMaps.HashBoundedMap.Insert | src-tauri/src/notifications.rs:289-299 | refines the abstract insert; the deque stays duplicate-free with exactly the map's keys |
| BoundedMaps.HashBoundedMap.Remove | src-tauri/src/notifications.rs:301-307 | refines the abstract removal, on map and deque alike |
| BoundedMaps.TsBoundedMap.constructor | src/shared/boundedSet.ts:49-51 | a new map is empty |
| BoundedMaps.TsBoundedMap.Set | src/shared/boundedSet.ts:62-69 | inserts or updates as written, guard on `undefined` included, and keeps keys distinct |
| BoundedMaps.TsBoundedMap.Remove | src/shared/boundedSet.ts:71-73 | removes the key and says whether it was there |
| BoundedMaps.TsSetRefinesPut | src/shared/boundedSet.ts:61-69 | one `set` is the abstract insert, and keeps the bound, if and only if it need not evict the key `undefined` |
| BoundedMaps.BothMapsAgree | src/shared/boundedSet.ts:46-82 | the Rust and TypeScript maps hold the same entries after any operations whose keys are never `undefined` |
| BoundedMaps.TheMapsAgreeExactly | src/shared/boundedSet.ts:46-82 | after every prefix of any operations the two maps hold the same entries if and only if no insert among them would have evicted `undefined` |
| BoundedMaps.UndefinedPinsTheMap | src/shared/boundedSet.ts:66-67 | from the empty map, `undefined` and then any number of distinct keys leaves them all in, whatever the capacity |
| Notifications.NeverTwiceAppend | src-tauri/src/notifications.rs:94-105 | a toast recorded only when it is not the latest word on its session keeps any two equal toasts apart by another event of that session |
| Notifications.StampsFollowFire | src-tauri/src/notifications.rs:111-117 | after a fire, evictions included, each stamp is there if and only if the latest event of its session is that toast |
| Notifications.StampsFollowReset | src-tauri/src/notifications.rs:83-88 | a follow-up turn or a forget drops the stamp and keeps that equivalence |
| Notifications.LatestIsLast | src-tauri/src/notifications.rs:81-118 | the latest event of a session is one of its events and none of its events follows |
| Notifications.NotificationService.constructor | src-tauri/src/notifications.rs:46-54 | a new service is enabled and remembers nothing, with room for 2000 stamps and 500 check keys |
| Notifications.NotificationService.Forget | src-tauri/src/notifications.rs:157-161 | drops the stamp and keeps the invariant |
| Notifications.NotificationService.Notify | src-tauri/src/notifications.rs:81-118 | only a complete or failed session can toast, and any other state is a reset; a toast goes out if and only if enabled, unfocused and supported, and not already the latest word; a failed fire stamps nothing; the invariant is kept |
| Notifications.NotificationService.NotifyCheckFailure | src-tauri/src/notifications.rs:120-155 | a key is claimed exactly when due, before the fire, so that a failed fire is not retried |
| NotificationCallers.ACheckFailureFiresOncePerResidency | src-tauri/src/notifications.rs:129-154 | however callers interleave, toasts, failed fires and pending fires of a key equal the residencies it began; a key never evicted is toasted at most once |
| NotificationCallers.AnUndisturbedCallerIsOneCall | src-tauri/src/notifications.rs:120-155 | a caller whose steps nobody comes between toasts and claims its key exactly when it is clear to and the key is unclaimed |
| NotificationRaces.RacingNotifiesToastTwice | src-tauri/src/notifications.rs:98-117 | two interleaved `notify` calls for the same terminal state can both toast |
| NotificationRaces.ARepeatedToastExactly | src-tauri/src/notifications.rs:94-117 | in every run of overlapping calls, a toast repeats the last word on its session if and only if another caller showed that state since this one looked, or had shown it and at the look it was unstamped, stamped over by an older one, or evicted, with nothing said since |
| NotificationRaces.AStampIsStaleExactlyWhenLate | src-tauri/src/notifications.rs:111-117 | in every run, a stamp is not the last word on its session if and only if a reset or another toast fell between its toast and its writing, or a later toast is still to be stamped |
| NotificationSilence.AStampStartsToLieExactly | src-tauri/src/notifications.rs:111-117 | in every run, a step makes a truthful or missing stamp lie if and only if it stamps a state that is not the last word on its session, or shows a toast other than the one stamped |
| NotificationSilence.ALyingStampWasMadeToLie | src-tauri/src/notifications.rs:81-118 | in every run, a stamp is not the last word on its session if and only if such a step made it so and nothing has put it right since |
| NotificationSilence.AToastIsSilencedExactly | src-tauri/src/notifications.rs:98-105 | in every run, a completion is wrongly turned away if and only if it meets its own state in a stamp that such a step made to lie and nothing has put right since |
| NotificationSilence.ARepeatBecomesDueExactly | src-tauri/src/notifications.rs:94-111 | in every run, a step makes a caller due to repeat the last toast of its session if and only if it looks past that toast, or another caller shows it first |
| NotificationSilence.SerialLooksAreNotSilenced | src-tauri/src/notifications.rs:81-118 | where calls do not overlap, no completion is wrongly turned away |
| NotificationSilence.ALateStampSilencesTheNextToast | src-tauri/src/notifications.rs:83-117 | a concrete run: a follow-up turn between a toast and its stamp is undone, and the next completion is turned away |
| NotificationRaces.AnUndisturbedCallerIsOneNotify | src-tauri/src/notifications.rs:94-118 | a caller whose steps nobody comes between shows its toast exactly when it is clear to and the stamp is not of its own state, and stamps exactly what was shown |
| NotificationRaces.SerialCallersRepeatOnlyWhatWasEvicted | src-tauri/src/notifications.rs:81-118 | where calls do not overlap, a toast is repeated only after its stamp was evicted |
| DetailsPopup.StepMovesWorkspace | src/renderer/App.tsx:1632-1695 | each step moves a created workspace between launching, current, disposed and abandoned; only a creation reply adds one |
| DetailsPopup.SweepIsSafe | src/renderer/App.tsx:1696-1712 | the sweep takes only ids not taken before and never the current popup's |
| DetailsPopup.TheSweepSparesOurOwn | src/renderer/App.tsx:1619-1631 | in every interleaving, rows of other windows included, a window's sweep never archives a workspace whose creation that window saw or will see succeed, and no row twice |
| DetailsPopup.NothingLeaksAndNothingIsDisposedTwice | src/renderer/App.tsx:1589-1618 | every launched session is current or disposed of, exactly once; every created workspace is in exactly one of four places |
| DetailsPopup.AFailedLaunchCleansUp | src/renderer/App.tsx:1669-1676 | a failed launch archives its own workspace once, and neither a disposal nor the sweep ever touches it |
| DetailsPopup.StraysAreCaught | src/renderer/App.tsx:1696-1712 | with no creation in flight a sweep leaves a row archived if and only if it already was, or the row is unclaimed and not the current popup |
| DetailsPopupWindows.EveryWindowKeepsItsPromises | src/renderer/lib/windowRole.ts:1-7 | with several windows over the same rows, each is in a state it could reach alone, so what is proved of one holds of each |
| DetailsPopupWindows.EveryWindowSparesItsOwn | src/renderer/App.tsx:1619-1631 | with several windows, no window archives a workspace it created itself, at any time |
| DetailsPopupWindows.AnotherWindowArchivesExactlyWhatItSweeps | src/renderer/App.tsx:1696-1712 | in every run of several windows, another window archives a window's popup workspace if and only if it ever sweeps a snapshot that holds the row with no creation of its own in flight |
| DetailsPopupWindows.ATornOffWindowArchivesOurPopup | src/renderer/App.tsx:1696-1712 | a concrete run: one torn-off window and one snapshot suffice |
| DetailsPopupOwner.Owner.constructor | src/renderer/App.tsx:1584-1631 | a fresh renderer has no popup, nothing claimed and nothing in flight |
| DetailsPopupOwner.Owner.BeginLaunch | src/renderer/App.tsx:1638-1644 | the block before the first await refines the launch step |
| DetailsPopupOwner.Owner.OnCreated | src/renderer/App.tsx:1645-1652 | the id is claimed in the same block that ends the creation |
| DetailsPopupOwner.Owner.OnCreateFailed | src/renderer/App.tsx:1649-1652 | a failed creation ends without a claim |
| DetailsPopupOwner.Owner.OnLaunched | src/renderer/App.tsx:1677-1692 | the replaced popup is disposed of and the new one is current |
| DetailsPopupOwner.Owner.OnLaunchFailed | src/renderer/App.tsx:1669-1676 | the workspace archived is the one the failed launch had claimed, recorded as such |
| DetailsPopupOwner.Owner.OnClose | src/renderer/App.tsx:1613-1618 | the current popup is disposed of and none is left |
| DetailsPopupOwner.Owner.OnSweep | src/renderer/App.tsx:1696-1712 | with no creation in flight it archives, once each, the popup rows not archived that are neither current nor taken before, and none that was ever claimed; otherwise nothing |
| DetailsPopupOwner.Owner.SweepLive | src/renderer/App.tsx:1699-1711 | the loop over the snapshot takes live popup rows one by one, as the reference sweep does |
| DetailsPopupOwner.LaunchStep | src/renderer/App.tsx:1677-1680 | a launch reply never names the session that is current, so the comparison of ids never skips a disposal |
| AgentSaves.SavesFollowChoices | src/renderer/App.tsx:442-488 | in every run calls never overlap, follow the order of choices, and carry the modes of their choice and the newest pick up to it that was no Router pick; none is empty |
| AgentSaves.OnlyTheNewestChoiceIsSent | src/renderer/App.tsx:463-488 | in every run, a step makes a call if and only if it starts the next link and that link is the newest choice's; the call carries the newest pinned pick and the newest modes, so no superseded save is sent |
| AgentSaves.TheLastCallIsTheNewestChoice | src/renderer/App.tsx:449-488 | once the chain settles, the last call carries the newest pinned model and the newest modes; with no call made, nothing was pinned and the modes are the initial ones |
| AgentSaves.NoCallWhileSkipped | src/renderer/App.tsx:454-458 | an effect that queues nothing has seen nothing pinned and no change of modes, so no call was made before it |
| AgentSaves.SaveQueue.constructor | src/renderer/App.tsx:442-448 | a fresh queue has no save and no pinned model |
| AgentSaves.SaveQueue.OnChoice | src/renderer/App.tsx:450-488 | the effect refines the choice step: cleanup, pinning, early return, one link appended |
| AgentSaves.SaveQueue.StartNext | src/renderer/App.tsx:463-476 | the next link calls with the payload of its own choice, or makes no call when its effect was cleaned up |
| AgentSaves.SaveQueue.OnSettled | src/renderer/App.tsx:477-486 | a settled call frees the chain |
| Decimal.ValueOfNumeral | src-tauri/src/activity/git_log.rs:110-115 | reading a decimal numeral gives back its number |
| Decimal.ValueExactly | src-tauri/src/activity/git_log.rs:110-115 | a text has a value if and only if it is the numeral of that value after any number of zeros |
| GitLog.WrapIsModular | src-tauri/src/activity/git_log.rs:54-56 | sums wrapped row by row equal the wrapped total, which is in the range of 64 bits and exact there |
| GitLog.ParseLog | src-tauri/src/activity/git_log.rs:35-63 | the one-pass loop with its `seen` set computes the first-per-SHA parse |
| GitLog.Push | src-tauri/src/activity/git_log.rs:65-69 | keeps a commit if and only if its SHA is new |
| GitLogProperties.HeaderReadsBack | src-tauri/src/activity/git_log.rs:71-92 | a written header parses to its commit if its author is allowed and to nothing otherwise |
| GitLogGrammar.HeaderExactly | src-tauri/src/activity/git_log.rs:71-92 | any text parses to the header of a commit if and only if it has four fields that are the commit's but for white space around them, SHA, email and committer date not empty, the author allowed |
| GitLogGrammar.TrimExactly | src-tauri/src/activity/git_log.rs:73-76 | trimming takes away the white space around a text and nothing else |
| GitLogGrammar.LowerExactly | src-tauri/src/activity/git_log.rs:80 | two texts are the same in lower case if and only if they differ only in the case of ASCII letters |
| GitLogGrammar.AllowedExactly | src-tauri/src/activity/git_log.rs:80 | an author is allowed if and only if some allowed email without capitals is theirs but for the case of ASCII letters |
| GitLogProperties.RowReadsBack | src-tauri/src/activity/git_log.rs:98-108 | a written numstat row, tabs in its path and `-` counts included, parses to its counts |
| GitLogGrammar.NumstatExactly | src-tauri/src/activity/git_log.rs:98-115 | any line parses to a row if and only if it is two counts, each `-` or a 64-bit integer with or without a sign, and a path, with a tab after each count |
| GitLogGrammar.NoiseIsSkipped | src-tauri/src/activity/git_log.rs:49-57 | a line that is neither a header nor such a row changes nothing |
| GitLogGrammar.LinesExactly | src-tauri/src/activity/git_log.rs:40 | a line ends at a newline, along with a carriage return before it, or at the end of the output |
| GitLogProperties.HeaderCuts | src-tauri/src/activity/git_log.rs:40-47 | nothing after a header depends on what came before it |
| GitLogProperties.EveryShaOnce | src-tauri/src/activity/git_log.rs:33-69 | the kept commits have the SHAs of all, each once, are the first of their SHA, and come in the order of those firsts |
| GitLogGrammar.OnlyAllowedCommits | src-tauri/src/activity/git_log.rs:35-92 | whatever the output, every commit parsed has a SHA, a committer date and an allowed author, and no two have the same SHA |
| GitLogProperties.ParsingComposes | src-tauri/src/activity/git_log.rs:35-69 | output cut before a commit header parses to the first part's commits followed by the second part's, minus SHAs already seen |
| GitLogProperties.ParsingReadsBackTheLog | src-tauri/src/activity/git_log.rs:28-69 | parsing the rendering of any well-formed records gives the allowed authors' commits, first per SHA, with their exact totals in 64 bits |
| ActivityStreaks.StreaksFrom | src/renderer/demoActivity.ts:345-374 | the current streak is the maximal active suffix, the longest is the maximum over all runs, its dates name the first such run, and the current one is never longer |
| ActivityStreaks.BusiestDay | src/renderer/demoActivity.ts:375-384 | the busiest day has the most commits of all days, and is the one met first among equals; there is none only without commits |
| ActivityStreaks.Tally | src/renderer/demoActivity.ts:375-379 | the map holds each date once, in order of first appearance, with its number of commits |
| ActivityAggregates.TotalsFrom | src/renderer/demoActivity.ts:295-307 | commits, lines and files are the sums, active days the number of distinct days |
| ActivityAggregates.SeriesFrom | src/renderer/demoActivity.ts:309-327 | each bucket holds the number, added and removed lines of the commits of its index, project by project, and of exactly those between its start and the next when no start is on the other side of a commit than its nominal place; the series adds up to the commits not before the first bucket |
| ActivityAggregates.ProjectsInOrder | src/renderer/demoActivity.ts:317-323 | a bucket's projects are those of its commits, in the order of their first commits |
| ActivityAggregates.PlacedByTimeExactly | src/renderer/demoActivity.ts:314-315 | a commit is counted in the bucket it lies in if and only if actual and nominal starts agree on which side of it they are |
| ActivityAggregates.CutsAreExactWhenEven | src/renderer/demoActivity.ts:273-293 | a cut counts every possible commit in its bucket if and only if its starts are a step apart |
| ActivityAggregates.EvenStarts | src/renderer/demoActivity.ts:273-282 | hour and day cuts start at the range's start, are a step apart and cover the range |
| ActivityAggregates.CadenceFrom | src/renderer/demoActivity.ts:387-396 | counts from Monday to Sunday and by hour; each adds up to the number of commits |
| ActivityAggregates.BucketSign | src/renderer/demoActivity.ts:314-315 | a commit falls out of the series if and only if it is earlier than the first bucket |
| ActivityAggregates.WindowedLogIsPlaced | src/renderer/demoActivity.ts:309-323 | in a windowed log no commit is too early for the series |
| ActivityAggregates.CardsAgree | src/renderer/demoActivity.ts:634-675 | totals, series, weekdays and hours computed of a windowed log all count the same commits, and totals and series the same lines |
| ChatWindows.TakenAreMany | src-tauri/src/windows.rs:63-69 | if the labels below `n` are all registered, at least `n - 1` windows are |
| ChatWindows.NextNumber | src-tauri/src/windows.rs:63-69 | there is a least unused number and it is at most one above the number of registered windows |
| ChatWindows.ChatWindows.constructor | src-tauri/src/windows.rs:37-40 | a new registry is empty |
| ChatWindows.ChatWindows.LabelForSession | src-tauri/src/windows.rs:43-49 | finds some window registered for the session if and only if there is one |
| ChatWindows.ChatWindows.NextLabel | src-tauri/src/windows.rs:63-69 | the search over the unbounded range ends, and returns the least unused label |
| ChatWindows.TheRegistryNamesOpenWindows | src-tauri/src/windows.rs:175-217 | in every run the registry names only open torn-off windows and the focus records only open ones |
| ChatWindows.OpeningDoesNotStackATwin | src-tauri/src/windows.rs:219-284 | in every run, opening a session that an open torn-off window was opened for or last reported brings such a window forward and changes nothing; any other gets one new window under an unused label, or fails and changes nothing |
| ChatWindows.TheRegistryHoldsTheLastWord | src-tauri/src/ipc/windows.rs:26-43 | in every run, the session on record for an open torn-off window is the one it was opened for or, after that, its own latest report; none after a blank one |
| ChatWindows.AReportedSessionIsRaised | src-tauri/src/ipc/windows.rs:26-43 | until the window closes or reports again, opening the session it reported raises a window that shows it |
| ChatWindows.OnlyIdsOpenWindows | src-tauri/src/windows.rs:225-234 | an id is refused, and nothing changed, if and only if it is empty or has a character other than ASCII letters, digits, the hyphen and the underscore |
| ChatWindows.TheFocusRecordsAreExact | src-tauri/src/windows.rs:175-217 | in every run, a focus record names a window if and only if it was the last to be given focus, of the app's own for the app's record, and has not been closed since |
| ChatWindows.AppWindows | src-tauri/src/windows.rs:72-75 | the main window and the torn-off ones are the app's, the browser's are not |
| ChatWindows.OpeningTwiceIsOpeningOnce | src-tauri/src/windows.rs:35-36 | opening the same session again right away brings forward a window and changes nothing |
| ChatWindows.AFreedLabelIsReused | src-tauri/src/windows.rs:298-312 | after a window closes, the next label is the smaller of its own and the one that was next |
| ChatWindows.LabelsStayDistinct | src-tauri/src/windows.rs:63-69 | until a window reports an empty selection, every torn-off window is registered and the next label names no open window |
| ChatWindows.UnregisteredMeansBlank | src-tauri/src/ipc/windows.rs:36-41 | in every run, an open torn-off window is unregistered if and only if the last said of it was a blank report |
| ChatWindows.TheNextLabelIsInUseExactly | src-tauri/src/windows.rs:63-69 | in every run, the next label is that of an open window if and only if the lowest number without a chat on record is that of an open window that last reported none |
| ChatWindows.ABlankReportGivesAwayItsLabel | src-tauri/src/ipc/windows.rs:36-41 | after a first blank report the next label is in use if and only if every lower-numbered window is open |
| ChatWindows.BlockedUntilAWindowMoves | src-tauri/src/windows.rs:245-274 | while the next label is in use, every attempt to open a new session fails and changes nothing |
| ChatWindows.ABlankWindowBlocksTheNext | src-tauri/src/ipc/windows.rs:36-41 | that happens with a single torn-off window |
| ChatWindows.WindowShell.constructor | src-tauri/src/windows.rs:29-40 | at start only the main window is open |
| ChatWindows.WindowShell.Open | src-tauri/src/windows.rs:219-284 | refines the opening step, whichever registered window the search meets |
| ChatWindows.WindowShell.Report | src-tauri/src/ipc/windows.rs:26-43 | refines the report step; the main window's reports change nothing |
| ChatWindows.WindowShell.OnFocused | src-tauri/src/windows.rs:180-185 | refines the focus step |
| ChatWindows.WindowShell.OnDestroyed | src-tauri/src/windows.rs:186-214 | refines the closing step; closing the main window asks every torn-off window to close |

## Left out

- DeliveryWakeup.ThePendingResyncWakesTheWorker: for runs in which no wake is drained by the last drain; `DeliveryWakeup.StrandedMeansDrained` is the exact statement for every run.
- DeliveryFence.NoInvalidationIsLost: for runs without a late bump; `DeliveryLosses.ACallIsLostExactlyWhereItIsDropped` is the exact statement for every run.
- DeliveryFence.CaughtUpMeansDelivered: for runs without a late bump; `DeliveryLosses.CaughtUpExactly` is the exact statement for every run.
- DeliveryFence.NothingStaleFollowsAResync: for runs without a late bump; `DeliveryGenerations.GenerationsNeverGoBack` and `DeliveryGenerations.TheFenceExactly` are the statements for every run.
- DeliveryFence.TheFinalCheckSeesOneGeneration: for runs without a late bump; `DeliveryGenerations.TheFinalCheckExactly` is the exact statement for every run.
- DeliveryFence.TheParkedItemOpensTheNextBatch: for runs without a late bump; `DeliveryGenerations.TheParkedItemExactly` is the exact statement for every run.
- BoundedMaps.BothMapsAgree: for keys that are never `undefined`; `BoundedMaps.TheMapsAgreeExactly` is the exact statement for all operations.
- ChatWindows.LabelsStayDistinct: for runs without a blank report; `ChatWindows.TheNextLabelIsInUseExactly` is the exact statement for every run.
- Notifications.NotificationService.Notify: one call at a time; overlapping calls are in `NotificationRaces` and `NotificationSilence`.
- DashboardDelivery.Delivery.Send: others act while the delta is serialized; that they may act between any two of its accesses is the state machine's, whose steps the method's path is made of.
- DashboardDelivery.Delivery.PrepareDashboardBatch: others act between the conflation loop and the final check; that they may act between any two of its accesses is the state machine's.
- A window that closes: its popup stays behind as a stray row, which any window's next sweep takes.
- Weak memory: accesses interleave sequentially; acquire and release orderings and the channel's internals are not modelled.
- A closed channel (`src-tauri/src/lib.rs:221-223`) and the end of the worker when all senders are gone.
- Emission itself: the main-thread hop, its failure to be scheduled, remote publishing, the dock badge and log lines; emitting appends to a history.
- JSON sizes: any positive number or a failure. The generation counter does not wrap around.
- Sorted, deduplicated id lists are sets, so their order is not stated; a dropped vector's allocation is not modelled.
- Terminal text is a sequence of bytes; UTF-8 decoding is not modelled, and neither is a closed terminal channel.
- The wording and icon of toasts, `fire_test`, and how a sink shows anything.
- `BoundedSet` in `src/shared/boundedSet.ts`, which is the map without values, and `clear`.
- The popup's title button, its snapshot merge, the `loadState` guard and a missing bridge; a sweep may run over any rows at any time.
- Whether a terminate or archive request succeeds; each is recorded when it is made.
- Toasts and spinners of the save queue, its remote-bridge guard, and unmounting.
- Debug builds of the parser, which would panic on a 64-bit sum where a release build wraps.
- Calendar arithmetic in `src/renderer/demoActivity.ts`: dates, weekdays, hours and bucket starts are given, and the heatmap is the input of the streaks.
- Window creation, zoom, cascade, navigation guard and focus requests in `src-tauri/src/windows.rs`; windows change one event at a time, on the main thread.
- `src-tauri/src/multitask.rs`, `connections.rs`, `updater.rs`, `default_agent.rs` and the rest of `App.tsx`: plumbing around services that are not part of this model, or members with nothing to prove across calls.
