# Verification of the zerg agent's protocols, formats and planners

This project models the parts of the repository where a mistake is hardest to see, and proves what they
are for. To verify it: `dafny verify dfyconfig.toml`.

| component | files | what is proved about it |
|---|---|---|
| resident-model protocol (`agent/internal/backend`) | `EggLifecycle`, `EggInvariant`, `EggAccounting`, `EggService`, `EggIdle`, `EggCounterexamples`, `EggOutcomes`, `EggManager` | threads interleaving lock-held and lock-free steps: no running unit without its entry, one service kind, exact in-flight counters, and exactly which step can cut a request off |
| egg expansion (`agent/internal/eggpkg`) | `Expansion`, `ExpansionLanding`, `ExpansionDisk`, `ExpansionRace`, `Symlinks` | a directory changed one file operation at a time, each able to fail or be the last before a crash: honest receipts, clean rollbacks, and, without faults, exactly which tables land and as what; with several calls interleaved, one writer at a time, honest receipts, and exactly which step can spoil them |
| request watchdog | `Watchdog`, `ContentCount`, `ContentBlanks` | detection is exact and bounded; escalation is graceful first and bounded; chunking of a stream does not matter |
| resource adjudication (`shared/resources`) | `Resources`, `EvictionPlan`, `FitEstimate` | one eviction order, planners that agree, and when an "evict" verdict is kept by its plan |
| log delivery | `LogDelivery`, `Ulid` | nothing is skipped, nothing is held twice; identifiers decode and sort by time |
| launch plan and declarations (`wall/src`, `hatch_spec.go`) | `Json`, `JsonGrammar`, `JsonParser`, `JsonPrinter`, `JsonRules`, `ShellWrapper`, `Text`, `WeightContract`, `ArgvMerge` | parser and grammar are the same thing, printing round-trips, quoting is safe, the weight contract and the argv merge mean what they say |

How the program's state is modelled:

- Functions that only compute are tied down by laws told in the fields of the records and in the texts themselves
  (`EggOutcomes`, `JsonRules`, and the `…Outcome`, `…Is` and `…Exact` lemmas beside them).
- Code that updates objects in place is a class here (`Manager`, `Subproc`, `Disk`, `Parser`, `Watch`,
  `Judged`, `Reporter`, `Guard`); loops are loops. Each method is proved against a function or a step of a
  state machine, and the laws are lemmas about that function or machine.
- The protocol machine has one action per atomic step of the program, so a run is any interleaving of any
  number of threads. An incarnation of a model is an identity (`cur == sp` in the program); the order in
  which a map is walked is arbitrary. `EggManager` ties the heap form of each lock-held region to its action.
- The file system follows symbolic links as the system does: component by component, physically, up to a limit.
- What belongs to other systems is nobody's choice: whether a hatch succeeds, what a file operation does,
  what a clock or a counter reads, how the controller answers. Collecting a unit is taken to succeed, and a
  failed hatch to leave nothing running.
- Integers are unbounded, fractional sizes are reals, hashes stand for the contents they fix, and strings
  are sequences of characters (in the link check, the environment and the content counter: of bytes).

## What turned out to be false of the code

Each of these is a proved run or input, next to the exact condition under which the claim does hold.

- *A stop never hits a request.* Unit names are a function of the model's name
  (`agent/internal/hatch/hatch.go:559-573`), and the stop that follows a pick is not guarded by the identity
  test that guards the removal after it. Even in a run that only serves, sweeps, drains and loads into free
  slots, a delayed stop can collect the successor's unit (`EggCounterexamples.DelayedStopHitsSuccessor`); it does
  so exactly when the table already has a busy successor of that name (`EggService.StopCutsOff`).
- *A draining entry is out of service.* `doStart` puts a draining entry back to ready
  (`agent/internal/backend/manager.go:387-393`) while a sweep may hold it (`EggCounterexamples.HealedThenStopped`);
  it keeps held eggs draining exactly when no thread holds the healed one (`EggService.HealHolds`), and likewise
  `restoreVictimLocked` (`EggService.RestoreHolds`). Service runs with heals and restores under these two guards
  keep everything they kept without them (`EggService.ServiceRunExact`). With exact counters, a pending stop cuts a
  request off if and only if the entry that now carries the name is busy as that unit (`EggService.StopHits`).
- *Counters equal outstanding requests.* Forced evictions test `reqCount`, which counts requests served and
  never goes down, not requests in flight; a busy egg that has not answered yet can be taken, and the release of
  its request then counts down the next incarnation (`EggCounterexamples.EvictionMiscounts`). A step keeps the
  counters exact if and only if none of the entries it takes out, read off the state before it, has a request in
  flight (`EggAccounting.RemovalAccounting`; for a load `EggAccounting.LoadAccounting`).
- *A completed expansion has every segment at its own path.* A link segment below another link segment passes
  every check (`Symlinks.LinkBelowLinkAccepted`) and is made through the upper link: on a disk without faults the
  call is done and certifies a segment that is not there (`ExpansionLanding.LinkBelowLinkFails`,
  `ExpansionDisk.ExpandLinked`). A completed call has every segment at its own path if and only if no link lies
  below a link, which a reader of the table could check before writing anything (`ExpansionDisk.Disk.Expand`).
- *The lock keeps two calls apart.* A call looks at the directory before it takes the lock and does not look
  again (`agent/internal/eggpkg/expand.go:651-693`). If another call completes in between, the late one writes into
  the completed tree and, when it fails, empties it under the receipt (`ExpansionRace.LateLockHappens`). A late lock
  can lead to a receipt over missing segments if and only if it is taken over a receipt
  (`ExpansionRace.LateLockIff`); runs without a late lock keep every receipt honest (`ExpansionRace.RaceHonest`).
  Even then a rollback removes the lock before it removes the receipt (lines 966-970), so it can take away the
  receipt another call has earned in between, and the directory is refused for good
  (`ExpansionRace.StaleRollbackHappens`, `ExpansionRace.ContentWithoutReceipt`); a step can do that if and only if its
  call stands at that point of its rollback (`ExpansionRace.ReceiptLostIff`).
- *At most `max_stale_kills` judgements on an egg are escalated.* The wait for a header counts each kill twice,
  so one fewer of its judgements acts (`Watchdog.ActedExactly`), and the one at the limit neither cancels the request
  nor stops anything (`Watchdog.Judged.HandleStuck`). The guard on a response body cancels before it counts and does
  not look at the count (`Watchdog.Judged.HandleGuard`): four guards in a row are four escalations against a limit
  of three (`Watchdog.GuardsExceedTheLimit`). The limit is kept if and only if at most one guard judges after the
  first limit-minus-one kills (`Watchdog.EscalationsBoundedIff`). A hard stop without a request to exit and an expired
  grace is never made by either (`Watchdog.CourseIsGraceful`).
- *An "evict" verdict's plan makes the room.* A resident with neither alias nor digest counts as room that can be
  made but cannot be planned (`FitEstimate.NamelessIsNotKept`, for a query the estimate accepts); the promise is
  kept if and only if the residents that can be named would be enough (`FitEstimate.EvictKeptIff`).
- *Keep-alive comments never count.* A comment of more than 64 KiB does when a chunk ends inside it
  (`ContentCount.LongCommentCounts`). A stream of comments and blank lines counts for nothing if and only if no
  chunk ends in an unfinished line of more than 64 KiB (`ContentCount.KeepAliveIff`); under the same condition the
  count of any stream is the one its lines say (`ContentCount.ChunksDoNotMatter`).
- *Resent entries keep their identifiers.* A complete line that arrives between a failure and its retry changes
  the batch and so all its identifiers, and a line whose first answer was lost is then held twice
  (`LogDelivery.HeldTwice`). Whatever becomes of a retry's slices, every line stays held under one identifier if and
  only if no complete line came since the failed try, or nothing of that try had been taken in
  (`LogDelivery.RetryKeepsIff`).

Where comments and code disagree the code is modelled: `clean_path` says it equals Go's `filepath.Clean`, but it
drops leading `..` of relative paths (the exact condition is `WeightContract.CleanIsWalkIff`) and cleans `a/..` to
the empty string; the comment on `RankEvictions` names the digest as the last sorting key, but the code compares
aliases before digests.

## Model

| member | source | states |
|---|---|---|
| EggInvariant.StepKeeps | agent/internal/backend/hatch_path.go:274-337 | whatever step any thread takes next (load, unlocked expansion, re-check, start, pick, stop, finalize, drain, eviction, unload, self-heal, failure handling), every running unit stays the uncollected unit of an entry of the table and all residents stay of one service kind |
| EggService.RunSafe | agent/internal/backend/manager.go:231-610 | no orphan unit and one service kind in every state of every run from the empty table, also while a load has released the lock |
| EggInvariant.HatchKeeps | agent/internal/backend/hatch_path.go:285-372 | no outcome of a hatch, on a placeholder that is still current or no longer so, leaves a unit running without its entry |
| EggInvariant.LoadKeeps | agent/internal/backend/manager.go:378-540 | a load that heals, refuses, makes room or places its entry keeps both invariants; a blocked service kind is never joined |
| EggAccounting.StepAccounting | agent/internal/backend/p2_lifecycle.go:211-255 | a step of any thread keeps every in-flight counter equal to the model's outstanding requests if and only if it takes no entry with requests in flight out of the table |
| EggAccounting.RemovalAccounting | agent/internal/backend/p2_lifecycle.go:211-255 | a step of any thread keeps the counters exact if and only if none of the entries it takes out, named from the state before it, has a request in flight |
| EggAccounting.LoadAccounting | agent/internal/backend/manager.go:378-540 | a load keeps them exact if and only if nothing is in flight on its own entry (unless healed), the overflow set, the evictable entries of another kind and, unless blocked, the memory set |
| EggAccounting.UnloadAllAccounting | agent/internal/backend/residency.go:561-590 | a full unload keeps them exact if and only if every busy entry is pinned |
| EggAccounting.StopAllAccounting | agent/internal/backend/manager.go:612-627 | stopping everything keeps them exact if and only if nothing is busy |
| EggService.ServiceStep | agent/internal/backend/p2_lifecycle.go:70-155 | serving, sweeping, draining, loading an absent model, and heals and restores of what no other thread holds, keep the counters exact, keep held eggs draining and remove no busy entry |
| EggService.ServiceRunExact | agent/internal/backend/p2_lifecycle.go:70-307 | in every state of every service run the counters are exact, no counter of an idle-armed or draining egg is above zero, and whoever holds a stop holds a draining egg |
| EggService.IdleHasNoRequest | agent/internal/backend/p2_lifecycle.go:211-255 | no outstanding request is counted on an egg that is idle-armed or draining |
| EggService.StopHits | agent/internal/backend/p2_lifecycle.go:118-190 | with exact counters, collecting a held unit cuts a request off if and only if the entry that now carries the name is up as that unit and busy |
| EggService.StopCutsOff | agent/internal/backend/p2_lifecycle.go:118-190 | collecting a held unit cuts a request off if and only if the table has a busy successor under the same unit name; never while the held incarnation is still the current one |
| EggService.HatchNameFree | agent/internal/backend/hatch_path.go:287-317 | when a placeholder passes its identity check its unit name is not running, so clearing the name before a start stops nothing |
| EggAccounting.UnloadAccounting | agent/internal/backend/residency.go:511-556 | a targeted unload keeps the counters exact if and only if no unloaded egg has a request in flight |
| EggAccounting.FinalizeAccounting | agent/internal/backend/p2_lifecycle.go:139-155 | ending a held stop keeps the counters exact if and only if it does not remove a busy current entry |
| EggIdle.UseRemembered | agent/internal/backend/p2_lifecycle.go:211-255 | once an incarnation was used, no later step of any thread moves its activity time before that use or changes its threshold |
| EggIdle.PickedWasIdle | agent/internal/backend/p2_lifecycle.go:70-106 | an egg the idle sweep picks was last used more than its own threshold ago, at every earlier step of the run |
| EggOutcomes.PinnedStays | agent/internal/backend/p2_lifecycle.go:278-307 | no request for another model, sweep, unload, making of room or stuck verdict of any thread takes a pinned egg out of service |
| EggOutcomes.BusyIsNotDrained | agent/internal/backend/p2_lifecycle.go:70-106 | neither the sweep nor a request for another model takes an egg with requests in flight out of service |
| EggOutcomes.RequestOutcome | agent/internal/backend/p2_lifecycle.go:278-307 | field by field what a request for a model leaves: itself ready with its time noted, a busy or pinned other egg untouched, any other one draining |
| EggOutcomes.AcquireOutcome | agent/internal/backend/p2_lifecycle.go:211-229 | field by field: one more in flight, the time noted and the countdown cancelled on a serving entry; else nothing |
| EggOutcomes.ReleaseOutcome | agent/internal/backend/p2_lifecycle.go:236-255 | field by field: one fewer in flight, never below zero; the last one out of a ready egg starts the countdown at that time |
| EggOutcomes.PickOutcome | agent/internal/backend/p2_lifecycle.go:70-106 | exactly the current eggs that count down, are unpinned, have nothing in flight and were last used longer ago than their threshold start draining and are handed over; nothing else changes |
| EggOutcomes.StopOutcome | agent/internal/backend/p2_lifecycle.go:161-190 | the lock-free half collects the held handle's unit, if it has one, and leaves the table and every other egg alone |
| EggOutcomes.FinalizeOutcome | agent/internal/backend/p2_lifecycle.go:139-155 | of the whole state only the entry goes, and only if it still is the stopped incarnation |
| EggOutcomes.RestoreOutcome | agent/internal/backend/manager.go:1049-1061 | the incarnation that now carries the name is put back to ready exactly if it is draining; nothing else changes |
| EggOutcomes.EvictAllOutcome | agent/internal/backend/manager.go:1187-1232 | a forced eviction takes exactly the named entries out of the table, collects exactly their units and changes nothing else |
| EggOutcomes.UnloadOutcome | agent/internal/backend/residency.go:511-556 | a targeted unload takes out exactly the named entries, all of them never asked for, unpinned and not loading |
| EggOutcomes.StopAllOutcome | agent/internal/backend/manager.go:612-627 | stopping everything empties the table and collects every entry's unit |
| EggOutcomes.UnloadAllOutcome | agent/internal/backend/residency.go:561-590 | exactly the pinned entries stay |
| EggOutcomes.LoadOutcome | agent/internal/backend/manager.go:378-540 | what a load comes to: a draining entry of the name with a unit is put back in service; else it goes, and with it only entries never asked for, unpinned and not loading; a new entry is placed exactly when nothing refuses and no resident of another kind remains |
| EggOutcomes.HatchOutcomes | agent/internal/backend/hatch_path.go:285-372 | each outcome of a hatch, field by field: served as its unit, or crashed with whatever was started collected, the entry kept only if the unit never became ready; a placeholder taken away meanwhile only ends its load |
| EggCounterexamples.DelayedStopHitsSuccessor | agent/internal/backend/p2_lifecycle.go:118-155 | a service run from the empty table that ends with a pending stop whose unit serves an outstanding request of the successor |
| EggCounterexamples.HealedThenStopped | agent/internal/backend/manager.go:383-400 | a run in which a picked egg is put back in service, takes a request, and the pending stop is still enabled |
| EggService.HealHolds | agent/internal/backend/manager.go:383-393 | self-healing keeps every held egg draining if and only if no thread holds the healed one |
| EggService.RestoreHolds | agent/internal/backend/manager.go:1049-1061 | restoring a victim by name keeps every held egg draining if and only if no other thread holds the incarnation that carries the name |
| EggCounterexamples.EvictionMiscounts | agent/internal/backend/manager.go:1187-1232 | a run in which a forced eviction takes a busy egg and its late release makes the next incarnation idle-armed with a request outstanding |
| EggManager.Manager.Acquire | agent/internal/backend/p2_lifecycle.go:211-229 | admits exactly into a serving entry, counting the request on that incarnation and cancelling a countdown; else changes nothing |
| EggManager.Manager.Release | agent/internal/backend/p2_lifecycle.go:236-255 | counts down whatever incarnation carries the name, never below zero; the last one out starts the countdown only from ready |
| EggManager.Manager.RequestModel | agent/internal/backend/p2_lifecycle.go:278-307 | decides on the first serving egg met; blocked, or with no egg serving, everything stays as it is; the model itself is made ready and its activity noted; another model is drained only when it was serving, unpinned and had nothing in flight, and then only its phase changes; every other egg stays as it is |
| EggManager.Manager.PickExpired | agent/internal/backend/p2_lifecycle.go:70-106 | hands over exactly the entries that are idle-armed, unpinned, with nothing in flight and past their threshold, all now draining |
| EggManager.Manager.StopVictim | agent/internal/backend/p2_lifecycle.go:161-190 | the lock-free half touches the held handle's unit and nothing of the table |
| EggManager.Manager.FinalizeVictim | agent/internal/backend/p2_lifecycle.go:140-153 | removes the entry if and only if it still is the stopped incarnation |
| EggManager.Manager.RestoreVictim | agent/internal/backend/manager.go:1049-1061 | a refused pre-check puts a draining entry of the victim's name back to ready |
| EggManager.Manager.FindDraining | agent/internal/backend/manager.go:256-287 | finds a draining entry if and only if there is one |
| EggManager.Manager.StopSubproc | agent/internal/backend/manager.go:1237-1282 | collecting a unit is idempotent and does nothing before there is one |
| EggManager.Manager.EvictNames | agent/internal/backend/residency.go:477-495 | evicting names one by one, in any order, comes to evicting the set at once |
| EggManager.Manager.EvictOtherKinds | agent/internal/backend/residency.go:451-473 | evicts exactly the evictable residents of another kind and reports exactly the others that remain |
| EggManager.Manager.DoStart | agent/internal/backend/manager.go:378-540 | one load under the lock is the machine's load step: heal, or clear the name, make room, and place a fresh incarnation |
| EggManager.Manager.HatchFinish | agent/internal/backend/hatch_path.go:285-372 | after the expansion only the incarnation that still holds the name is started; each outcome leaves exactly its entry, unit and phase |
| EggManager.Manager.Unload | agent/internal/backend/residency.go:511-556 | trims each name and unloads exactly the named entries the admission test allows |
| Text.TrimIs | agent/internal/backend/residency.go:525-525 | what trimming leaves: the string between a run of blanks at its start and one at its end, which itself begins and ends with no blank |
| EggManager.Manager.UnloadAll | agent/internal/backend/residency.go:561-590 | unloads everything but what is pinned |
| EggManager.Subproc.DrainIfExpired | agent/internal/backend/p2_lifecycle.go:75-103 | test and claim in one stretch of the lock: an entry starts draining if and only if it is expired |
| EggManager.EvictedNext | agent/internal/backend/residency.go:477-495 | evicting one more name after a set is evicting the larger set |
| Expansion.ReceiptAlwaysHonest | agent/internal/eggpkg/expand.go:623-744 | over any sequence of calls, each succeeding, failing or crashing at any step, for any eggs without a link below a link, a completion receipt in the directory always has every segment of its table on disk with the table's content (if it had at the start) |
| Expansion.CompletedStays | agent/internal/eggpkg/expand.go:748-814 | after a completed call (no link below a link) nothing a later call does, however it ends, changes the tree; a skip only answers for an egg with the same generation, identity, table and size |
| Expansion.OtherGenerationRefused | agent/internal/eggpkg/expand.go:792-814 | after a completed call, a call for an egg whose generation, identity, table or size differs is refused (or cut short) and changes nothing |
| ExpansionLanding.AnsweredByReceipt | agent/internal/eggpkg/expand.go:805-812 | without faults, the call after a completed one is skipped if and only if generation, identity, table and size are the same, and refused otherwise |
| ExpansionLanding.ExactlyTheEgg | agent/internal/eggpkg/expand.go:715-744 | without faults, in an empty place, a call that is done for a table that can land leaves the receipt, every segment at its own path, the directories above them, and nothing else: no lock, progress, note or temporary |
| ExpansionLanding.LinkBelowLinkFails | agent/internal/eggpkg/expand.go:854-876 | a table accepted by every check, expanded into an empty place without any fault: the call is done and its receipt names a segment that has no node |
| ExpansionDisk.ExpandLinked | agent/internal/eggpkg/expand.go:623-744 | such a call, run on a directory that is not there yet |
| ExpansionLanding.LandableLands | agent/internal/eggpkg/expand.go:818-879 | a table whose files can be given their modes and whose segments do not stand in each other's way always lands |
| ExpansionLanding.MkdirsPlace | agent/internal/eggpkg/expand.go:838-840 | making the directories on the way keeps the tree a tree, loses nothing, and ends at a directory, also through links |
| ExpansionDisk.Disk.Expand | agent/internal/eggpkg/expand.go:623-744 | one call under arbitrary faults and crashes: done means receipt plus all segments if and only if no link lies below a link; clean failure means root gone (if made) or only the failure note; refusal and skip change nothing of value; a locked directory is never written; without faults a place that is no directory is refused, one with content is skipped or refused, unchanged, by whose receipt it has, a locked one is refused unless that receipt is there, and in an empty place the call is done, with exactly the tree its rows make, when the rows land, and failed when one is refused; without a link below a link that is exactly when the table can land whole, and otherwise the place is left clean |
| ExpansionDisk.Disk.Enter | agent/internal/eggpkg/expand.go:651-691 | everything before the first byte: refused, skipped or locked; a settled tree is left untouched and a lock that is there is respected |
| ExpansionDisk.Disk.PrepareDir | agent/internal/eggpkg/expand.go:748-788 | goes on only over a directory with a receipt, unchanged, or one with nothing but markers; a directory with other content is refused unchanged |
| ExpansionDisk.Disk.CheckComplete | agent/internal/eggpkg/expand.go:792-814 | goes on only when there is no receipt; without faults, finds exactly a receipt of this version with this egg's generation, identity, table and size, and refuses every other |
| ExpansionDisk.Disk.Lock | agent/internal/eggpkg/expand.go:670-691 | taken only in a directory where the lock file was not there, adding nothing else; a refusal leaves all files as they were and removes at most an empty root this call made |
| ExpansionDisk.Disk.Fill | agent/internal/eggpkg/expand.go:693-744 | the writing part ends done, failed or crashed, with an honest tree in each case |
| ExpansionDisk.Disk.LandAll | agent/internal/eggpkg/expand.go:818-879 | a good end has every segment present unless some landing went through a link, which needs a link below a link |
| ExpansionDisk.Disk.MakeDirs | agent/internal/eggpkg/expand.go:838-840 | makes or enters the directories on the way, following links; straight on it adds nothing but them |
| ExpansionDisk.Disk.LandFile | agent/internal/eggpkg/expand.go:832-852 | a file lands where its directory really is, or not at all; without faults exactly when that place takes it |
| ExpansionDisk.Disk.LandLink | agent/internal/eggpkg/expand.go:854-877 | a link lands where its directory really is, or not at all; without faults exactly when that place is free or a link |
| ExpansionDisk.Disk.LandOne | agent/internal/eggpkg/expand.go:882-931 | a file appears under its name only with the bytes the table fixes; short of success only the temporary may have changed |
| ExpansionDisk.Disk.PlaceLink | agent/internal/eggpkg/expand.go:862-871 | replaces an old link, never anything else |
| ExpansionDisk.Disk.WriteAtomic | agent/internal/eggpkg/expand.go:995-1021 | a marker appears whole or not at all |
| ExpansionDisk.Disk.NoteProgress | agent/internal/eggpkg/expand.go:1027-1037 | progress notes touch nothing but the two progress names |
| ExpansionDisk.Disk.Rollback | agent/internal/eggpkg/expand.go:948-992 | a clean rollback leaves no directory (if this call made it) or one with only the failure note, and never makes a receipt; without faults it is clean |
| ExpansionDisk.Disk.Finish | agent/internal/eggpkg/expand.go:715-744 | the receipt is the last thing that can fail, and whether the lock can be removed after it makes no difference |
| ExpansionDisk.PresentNoLinkBelow | agent/internal/eggpkg/expand.go:854-876 | if all segments are nodes of their own, no link lies below a link |
| ExpansionDisk.PresentLandable | agent/internal/eggpkg/expand.go:818-879 | if all segments are nodes of their own, none stands where another needs a directory |
| ExpansionRace.RaceHonest | agent/internal/eggpkg/expand.go:623-744 | any number of calls in one directory, their steps interleaved in any way, each failing or crashing anywhere (no link below a link): as long as no lock is taken over a receipt or a stray link, at most one call writes at a time and every receipt found is honest |
| ExpansionRace.StepKeepsHonest | agent/internal/eggpkg/expand.go:651-744 | each step of each call keeps that, whatever the other calls are in the middle of, except taking the lock late |
| ExpansionRace.LateLockIff | agent/internal/eggpkg/expand.go:651-693 | taking the lock over a receipt, or over a tree without receipt and links: some continuation in which no other lock is late leads to a receipt over missing segments if and only if there was a receipt |
| ExpansionRace.LateLockHappens | agent/internal/eggpkg/expand.go:651-693 | a run from an empty directory in which one call completes between another's look and its lock, and the other then spoils the tree |
| ExpansionRace.ReceiptLostIff | agent/internal/eggpkg/expand.go:966-970 | without late locks, a call's next step can take an honest receipt away if and only if the call is in a rollback that has removed its lock and not yet looked for a receipt |
| ExpansionRace.StaleRollbackHappens | agent/internal/eggpkg/expand.go:948-992 | a run from an empty directory, without a late lock, in which a rollback removes the receipt of a call that has completed |
| ExpansionRace.ContentWithoutReceipt | agent/internal/eggpkg/expand.go:748-788 | content without a receipt is refused unchanged by every later look |
| ExpansionRace.CallStep | agent/internal/eggpkg/expand.go:623-744 | what the file operations of each phase do to the disk, under any faults, is a step of the interleaved calls |
| Symlinks.RefuseSymlinkSet | agent/internal/eggpkg/expand.go:307-350 | a link set is accepted if and only if every target is well formed, relative and never rises above the root, and every chain reaches a non-link within 8 links |
| Symlinks.CheckTarget | agent/internal/eggpkg/expand.go:317-329 | the verdict on one target, with the first rule it breaks |
| Symlinks.CheckChain | agent/internal/eggpkg/expand.go:330-347 | the walk ends on every link graph; accepted if and only if the chain ends within 8 links, a cycle if and only if it returns within them |
| Symlinks.InsideIffNeverRises | agent/internal/eggpkg/expand.go:291-303 | a target resolves inside the root if and only if its component walk never takes a step up from the root |
| Symlinks.TargetOutcome | agent/internal/eggpkg/expand.go:317-329 | a target is accepted if and only if it has one to 4096 bytes, no NUL, is relative, and never rises above the root on the way from the link's directory |
| Symlinks.OneStepUp | agent/internal/eggpkg/expand.go:291-303 | one step up from a nested link is the rest of the target from the directory above, and from a link at the root it is refused |
| Symlinks.BareName | agent/internal/eggpkg/expand.go:291-303 | a bare name points beside the link, and stays inside |
| Symlinks.WalkOn | agent/internal/eggpkg/expand.go:291-303 | where a walk ends, component after component |
| Symlinks.ComponentsJoin | agent/internal/eggpkg/expand.go:291-303 | splitting a target at its slashes loses nothing |
| Symlinks.AcceptedIsAcyclic | agent/internal/eggpkg/expand.go:330-347 | in an accepted set no link is reached again from itself, however far one follows |
| Symlinks.LinkBelowLinkAccepted | agent/internal/eggpkg/expand.go:307-350 | the check accepts a set with a link below a link |
| Watchdog.ProgressBudget | agent/internal/backend/watchdog.go:260-331 | the budget is the widest of the three patience settings, never negative, and off if and only if none is given |
| Watchdog.BudgetOutcome | agent/internal/backend/watchdog.go:273-331 | the widest of the no-progress setting, the prefill budget (given, or worked out) and the egg's own limit |
| Watchdog.PrefillExact | agent/internal/backend/watchdog.go:260-266 | twice the seconds the context takes at the observed speed, in whole nanoseconds; none without a context or a speed |
| Watchdog.PrefillExample | agent/internal/backend/watchdog.go:254-257 | 132000 tokens at 96 a second: 2750 seconds |
| Watchdog.Watch.Wait | agent/internal/backend/watchdog.go:540-663 | the loop's clocks and counters are those of the whole history, and its verdict is that of the first check that reaches one; switched off, nothing but the header ends the wait |
| Watchdog.Watch.MarkHeartbeat | agent/internal/backend/watchdog.go:460-460 | a sign of life renews its own clock only |
| Watchdog.Watch.MarkProgressChunks | agent/internal/backend/watchdog.go:468-475 | only a count that rises renews the progress clock |
| Watchdog.NoProgressIsFrozen | agent/internal/backend/watchdog.go:651-662 | a no-progress verdict implies a positive budget, a readable count, and no rise of its high-water mark at any check of the last budget's worth of time |
| Watchdog.DetectionBound | agent/internal/backend/watchdog.go:540-663 | a readable count that has stood still for the budget has been judged stuck by some check less than budget plus window plus sample (plus lateness) after the last advance, whatever the CPU did |
| Watchdog.GrowingIsNeverStuck | agent/internal/backend/watchdog.go:606-662 | a count that rises at a check is not judged stuck there |
| Watchdog.StalledIsExact | agent/internal/backend/watchdog.go:630-649 | the early verdict is given if and only if both clocks stood still at each of the required checks in a row |
| Watchdog.LastAdvanceIsLatest | agent/internal/backend/watchdog.go:468-475 | no advance is later than the one the progress clock shows |
| Watchdog.ProgressIs | agent/internal/backend/watchdog.go:468-475 | what counts as progress: a count above zero and above every count read before it |
| Watchdog.HighWaterIs | agent/internal/backend/watchdog.go:468-475 | the high-water mark is the highest count read, or zero |
| Watchdog.VerdictOutcome | agent/internal/backend/watchdog.go:540-663 | "fine" exactly when the header is there, "degraded" exactly when it is not and a CPU reading is missing; switched off, no verdict but the header |
| Watchdog.Judged.RecordStaleKill | agent/internal/backend/watchdog_wire.go:143-161 | counts one, and gives the egg up, as crashed, if and only if the limit is passed |
| Watchdog.Judged.EscalateStall | agent/internal/backend/watchdog.go:688-736 | a hard stop comes only after a graceful request and an expired grace, and exactly when the engine did not go by itself |
| Watchdog.Judged.HandleStuck | agent/internal/backend/manager.go:884-911 | what one stuck verdict does to an egg, and that it acts exactly while spent kills plus two stay within the limit |
| Watchdog.Judged.HandleGuard | agent/internal/backend/manager.go:955-966 | what a verdict of the body guard does to an egg: the request is cancelled and the kill counted whatever the count says; a hard stop follows only a budget verdict whose grace expired on a running stream |
| Watchdog.CourseIsGraceful | agent/internal/backend/progress_guard.go:212-243 | over any sequence of judgements of both kinds, every hard stop comes right after a request to exit and an expired grace |
| Watchdog.ActedExactly | agent/internal/backend/watchdog.go:693-701 | over any sequence of kills of both kinds exactly the header-wait judgements among the first limit-minus-one kills are acted on |
| Watchdog.EscalationsExact | agent/internal/backend/manager.go:884-966 | over any sequence of kills the escalations are the first limit-minus-one kills and every later one by a body guard |
| Watchdog.EscalationsBoundedIff | agent/internal/backend/watchdog_wire.go:143-161 | they stay within the limit if and only if at most one body guard judges after the first limit-minus-one kills |
| Watchdog.RequestsExact | agent/internal/backend/manager.go:884-966 | the requests cancelled in the course of all kills are the escalations and the header waits that give up past the limit |
| Watchdog.GuardsExceedTheLimit | agent/internal/backend/manager.go:955-966 | four body-guard kills against the default limit of three are four escalations |
| ContentCount.Guard.CountContent | agent/internal/backend/progress_guard.go:100-120 | the loop over a chunk computes the one-chunk function the laws are about |
| ContentCount.FeedExact | agent/internal/backend/progress_guard.go:100-120 | one chunk fed to a counter that is right leaves it right if and only if the unfinished line is at most 64 KiB, and otherwise counts that line raw and lets it go |
| ContentCount.WeightIs | agent/internal/backend/progress_guard.go:112-116 | what a complete line counts for: it is a run of blanks, a text and another run of blanks; the text counts its length unless it begins with a colon |
| ContentCount.LineCounts | agent/internal/backend/progress_guard.go:111-118 | one line more counts for what it weighs, together with what was left of it before |
| ContentCount.SplitExact | agent/internal/backend/progress_guard.go:100-120 | the lines and the tail the count is stated by make up the stream, and none has a line feed in it |
| ContentBlanks.BlanksAre | agent/internal/backend/progress_guard.go:112-112 | the trimmed blanks are the UTF-8 forms of exactly the Unicode White_Space characters |
| ContentCount.ChunksDoNotMatter | agent/internal/backend/progress_guard.go:100-120 | as long as no chunk ends in an unfinished line of more than 64 KiB, the counter is the total trimmed length of the stream's complete, non-empty, non-comment lines, however long, and the buffer its unfinished tail |
| ContentCount.ShortLinesAnyChunks | agent/internal/backend/progress_guard.go:100-120 | when no line is longer than 64 KiB that holds however the stream is cut |
| ContentCount.KeepAliveIff | agent/internal/backend/progress_guard.go:95-120 | a stream of keep-alive comments and blank lines leaves the count at zero if and only if no chunk ends in an unfinished line of more than 64 KiB |
| ContentCount.LongCommentCounts | agent/internal/backend/progress_guard.go:104-110 | one stream cut in two ways, with counts 65537 and 0 |
| JsonGrammar.ParseIffDerives | wall/src/json.rs:122-135 | a text is accepted with a value if and only if the grammar derives that value from it |
| JsonGrammar.OneValue | wall/src/json.rs:122-135 | the grammar is unambiguous |
| JsonRules.HexEscape | wall/src/json.rs:274-286 | four hexadecimal digits in either case stand for the character with that code point; a surrogate is refused |
| JsonRules.HexPlaces | wall/src/json.rs:274-286 | a hexadecimal digit stands for its place among `0-9a-f` or `0-9A-F`, and nothing else is one |
| JsonRules.NotHex | wall/src/json.rs:274-286 | an escape of four characters not all hexadecimal digits is refused |
| JsonRules.Escapes | wall/src/json.rs:266-273 | the eight short escapes, each with its code point |
| JsonRules.NoOtherEscape | wall/src/json.rs:287-292 | a backslash before anything else is refused |
| JsonRules.PlainChar | wall/src/json.rs:244-299 | a character that needs no escape stands for itself |
| JsonRules.NoRawControl | wall/src/json.rs:244-299 | a raw control character is refused |
| JsonRules.Joined | wall/src/json.rs:244-299 | what stands between the quotes is read piece after piece |
| JsonRules.Numbers | wall/src/json.rs:301-328 | figures are read in base ten, with an optional minus, exactly within 64 bits |
| JsonRules.Words | wall/src/json.rs:157-169 | the three words and their values |
| JsonRules.FirstChar | wall/src/json.rs:157-169 | no text with a value begins with anything but a blank or the first character of a value |
| JsonRules.Blanks | wall/src/json.rs:122-155 | space, tab, line feed and carriage return may be put around a text |
| JsonRules.OneItem | wall/src/json.rs:219-242 | one value between brackets is an array of it |
| JsonRules.OneMember | wall/src/json.rs:181-217 | one key and its value between braces are an object with that field |
| JsonRules.MoreItems | wall/src/json.rs:219-242 | after a comma an array has one item more, in order |
| JsonRules.MoreMembers | wall/src/json.rs:181-217 | after a comma an object has one member more, under a key that was not there |
| JsonParser.ParseText | wall/src/json.rs:122-135 | terminates on every text, accepts exactly what the grammar derives, with that value |
| JsonParser.Parser.One | wall/src/json.rs:157-169 | reads exactly one value off the front and strictly advances |
| JsonParser.Parser.Items | wall/src/json.rs:219-242 | reads the items and commas of an array as the grammar lays them out |
| JsonParser.Parser.Members | wall/src/json.rs:181-217 | reads an object's members, refusing a repeated key |
| JsonParser.Parser.String | wall/src/json.rs:244-299 | reads a string literal and its content |
| JsonParser.Parser.Number | wall/src/json.rs:301-328 | reads an integer within 64 bits and nothing else |
| JsonPrinter.Quote | wall/src/json.rs:103-119 | prints the literal whose pieces the laws below are about |
| JsonPrinter.QuoteOk | wall/src/json.rs:103-119 | the printed literal is in the grammar and its content is the string |
| JsonPrinter.QuoteEscapes | wall/src/json.rs:103-119 | no raw control character on the wire; every quote, backslash and control character escaped (section 7 of RFC 8259) |
| JsonRules.Printed | wall/src/json.rs:103-119 | each character as it is printed: five escapes of two characters, the other controls as four digits in lower case, everything else as it is |
| JsonPrinter.QuoteRoundTrip | wall/src/json.rs:103-135 | every string survives printing and parsing |
| JsonPrinter.ToJson | wall/src/lib.rs:54-74 | prints the plan's line piece by piece |
| JsonPrinter.PlanLineIsTree | wall/src/lib.rs:54-74 | the printed line is the text of a syntax tree of the grammar |
| JsonPrinter.PlanRoundTrip | wall/src/lib.rs:54-74 | the printed plan parses, to exactly the object with the plan's version, platform, argv, allowlist and note |
| JsonPrinter.PlanRead | wall/src/lib.rs:54-74 | the same, with the five fields and their values written out |
| JsonPrinter.PlanLineInjective | wall/src/lib.rs:54-74 | no two different plans print the same line |
| Resources.RankingMembers | shared/resources/evict.go:83-118 | for any report, also with residents alike, the ranking holds exactly the residents with no requests that are not pinned or whose pin has run out, as many times as they were reported |
| Resources.RankingExact | shared/resources/evict.go:83-118 | the ranking lists exactly the residents without requests and active pins, each once, strictly increasing |
| Resources.RankingOrder | shared/resources/evict.go:51-118 | processes that are not ours or dead rank first, those others wait for last; between equals the heavier first, then the longer unused, then by alias and digest |
| Resources.RankingOfAnyOrder | shared/resources/evict.go:83-118 | the order in which residents are reported does not matter |
| Resources.RankingCommutes | shared/resources/evict.go:83-118 | ranking commutes with picking out |
| Resources.LessTotal | shared/resources/evict.go:98-116 | two entries with different keys are ordered one way and not both |
| Resources.LexLessIff | shared/resources/evict.go:112-116 | strings are compared at their first difference, and a beginning of a string comes before the whole |
| Resources.SortStable | shared/resources/evict.go:102-117 | residents the order does not tell apart stay in the order of the report |
| EvictionPlan.RankEvictions | shared/resources/evict.go:83-118 | the append loop and stable sort compute the ranking, and the others are kept in order with their reasons |
| EvictionPlan.RankedOrKept | shared/resources/evict.go:83-118 | no resident is lost: each is ranked or kept |
| EvictionPlan.KeptExact | shared/resources/evict.go:85-95 | the kept are reported in order, by digest, "inflight" for those with requests and "pin_active" for the others |
| EvictionPlan.EvictToFree | shared/resources/evict.go:148-177 | for any report: walks the ranking, names each resident as the look-up under its key finds it, skips what has no name, counts its size, and stops at the need |
| EvictionPlan.ToFreeOwn | shared/resources/evict.go:148-177 | where every key finds its own name (distinct keys, or no NUL in names, however many residents are alike): the names of the shortest ranked prefix of addressable residents that reaches the need |
| EvictionPlan.ToFreeSafe | shared/resources/evict.go:148-177 | there, every target is the non-empty name of a reported resident without requests and without an active pin |
| EvictionPlan.NulFreeNames | shared/resources/evict.go:152-159 | without NULs in digests and aliases the look-up finds a resident of the same name, also among residents alike |
| EvictionPlan.EvictPlanForAction | shared/resources/action.go:59-87 | for any report: the same walk with test, name and size of the resident the look-up finds; every target names a reported resident that is ours, not loading, without requests and without an active pin |
| EvictionPlan.ForActionOwn | shared/resources/action.go:59-87 | with distinct keys: the names of the shortest ranked prefix of the residents that may be acted on |
| EvictionPlan.ForActionSafe | shared/resources/action.go:52-87 | for any report and need, every target is the non-empty alias (the digest without one) of a reported resident that is managed, not loading, without requests, and not pinned or with its pin run out |
| EvictionPlan.ForActionAll | shared/resources/action.go:52-87 | with distinct keys, for a need larger than everything, the targets are exactly the names of the residents that meet those conditions |
| EvictionPlan.TakeIsShortest | shared/resources/evict.go:158-176 | what a plan takes is a prefix, reaches the need or is everything, and no shorter non-empty prefix reaches it |
| EvictionPlan.PlannersAgree | shared/resources/action.go:54-87 | with distinct keys, planning for action is planning over the actionable residents alone |
| EvictionPlan.EvictVictims | agent/internal/backend/residency.go:348-375 | the agent's plan-then-filter returns the same list as planning for action, on the entries the agent reports |
| EvictionPlan.LoadingComesLast | agent/internal/backend/residency.go:290-318 | among the agent's entries what may not be acted on ranks last, so filtering before or after taking a prefix is the same |
| EvictionPlan.PlanFreesEnough | shared/resources/action.go:91-110 | the reported sum of a plan is what the planned residents occupy: the need, or all there is |
| FitEstimate.EstimateFit | shared/resources/fit.go:60-188 | for any report of residents: refuses to guess missing inputs; otherwise "fit", "evict" or "no fit" says whether the need is covered now, after evicting all that may be, or not at all, in memory and in separate graphics memory |
| FitEstimate.VerdictOutcome | shared/resources/fit.go:126-173 | "fit" if and only if the memory free now, and any separate graphics memory, take the need; else "evict" if they do with everything that can be freed; else "no fit" |
| FitEstimate.NeedOutcome | shared/resources/fit.go:90-124 | for a listed family: the weights, the keys and values by the model's own numbers or its family's, and the overhead, with two bytes and two GiB where nothing is given |
| FitEstimate.UnlistedFamily | shared/resources/arch.go:23-41 | a family that is not listed needs both of its own numbers |
| FitEstimate.NothingElseRefused | shared/resources/fit.go:70-100 | nothing but the listed shortcomings is refused |
| FitEstimate.KvExact | shared/resources/fit.go:110-112 | keys and values: two per layer, head, component and token, each of so many bytes, with the fraction of a byte cut off |
| FitEstimate.KvGrows | shared/resources/fit.go:110-112 | they never shrink when context, layers, heads or head size grow |
| FitEstimate.DeficitOutcome | shared/resources/fit.go:160-171 | the shortfall the plan is made for: what memory lacks, or graphics memory if that is separate and lacks more, never below zero |
| FitEstimate.FreeableIs | shared/resources/evict.go:132-142 | what can be freed is what the residents occupy that have no requests and no active pin |
| FitEstimate.EvictKeptIff | shared/resources/fit.go:158-173 | for every query and ledger the estimate does not refuse, residents alike or nameless included: the plan counts only evictable residents that can be named, and removing them covers the need if and only if all that can be named would, despite rounding on both sides of the deficit; without NULs in names it names each by its own name |
| FitEstimate.EvictIsKept | shared/resources/fit.go:158-173 | when every evictable resident can be named, an "evict" verdict is kept in memory and in graphics memory |
| FitEstimate.NamelessIsNotKept | shared/resources/evict.go:132-177 | a query and a ledger the estimate accepts, with an "evict" verdict and an empty plan |
| FitEstimate.ShortfallCovers | shared/resources/ledger.go:38-41 | truncating conversions on both sides of a shortfall never leave a byte missing |
| FitEstimate.WholeBytes | shared/resources/ledger.go:38-38 | a size in GiB is cut to whole bytes |
| LogDelivery.Classify | agent/internal/fleetlogs/reporter.go:391-405 | which answers end a batch, drop it, give up, or are retried |
| LogDelivery.NextBackoff | agent/internal/fleetlogs/reporter.go:409-423 | one second doubled per further failure, at most a minute |
| LogDelivery.Reporter.Scan | agent/internal/fleetlogs/reporter.go:248-290 | exactly the parseable complete lines after the cursor, in order |
| LogDelivery.Reporter.AssignEventIds | agent/internal/fleetlogs/reporter.go:430-445 | the same increment keeps its identifiers, any other gets fresh ones |
| LogDelivery.Reporter.PostBatch | agent/internal/fleetlogs/reporter.go:358-369 | slices of at most 500 in turn, none after the first error; success means all were taken in |
| LogDelivery.SendExact | agent/internal/fleetlogs/reporter.go:358-369 | of a batch nothing else is taken in, all of it when no error came back, in as many slices as 500 entries each make, none after the first error |
| LogDelivery.Reporter.RunOnce | agent/internal/fleetlogs/reporter.go:185-242 | one round, for every behaviour of the receiver, is the round the laws below are about; nothing is sent exactly after giving up, when the file cannot be read or when there is no parseable new line; an answer moves the cursor, counters, pause and remembered batch as its class says, field by field |
| LogDelivery.RoundKeeps | agent/internal/fleetlogs/reporter.go:185-242 | a round never moves the cursor back, moves it only past what was taken in or dropped on 400/413, and does nothing after giving up |
| LogDelivery.RoundMoves | agent/internal/fleetlogs/reporter.go:185-242 | what each class of answers does to the cursor, the remembered batch, the pause, the counters and the given-up mark |
| LogDelivery.BackoffTable | agent/internal/fleetlogs/reporter.go:409-423 | one, two, four, up to thirty-two seconds, and then a minute each time |
| LogDelivery.GaveUpIff | agent/internal/fleetlogs/reporter.go:233-237 | in every run, seen from the wire: it has given up if and only if some answer was 401 or 403 |
| LogDelivery.RefusedForGood | agent/internal/fleetlogs/reporter.go:189-191 | in every run: after such an answer no further answer comes, nothing more is taken in and the cursor stays |
| LogDelivery.NeverSentAgain | agent/internal/fleetlogs/reporter.go:215-232 | in every run, what is before the cursor at some moment is not sent after it |
| LogDelivery.DroppedForGood | agent/internal/fleetlogs/reporter.go:224-232 | in every run, after a round that ended in 400 or 413 no line complete by then is sent again |
| LogDelivery.RunDelivers | agent/internal/fleetlogs/reporter.go:185-290 | at every moment of every run on an append-only file, every parseable complete line before the cursor was taken in or belonged to an increment dropped on 400/413 |
| LogDelivery.GivenUpStays | agent/internal/fleetlogs/reporter.go:233-241 | after 401/403 nothing is sent and nothing moves any more |
| LogDelivery.RunHeldOnce | agent/internal/fleetlogs/reporter.go:430-445 | when every round finds no complete line come since a failed try, or none of that try taken in, each line is held under one identifier at every moment of the run |
| LogDelivery.RetryKeepsIff | agent/internal/fleetlogs/reporter.go:430-445 | every behaviour of the receiver leaves each line held under one identifier after a retry if and only if no complete line came since the failed try or none of it had been taken in |
| LogDelivery.HeldTwice | agent/internal/fleetlogs/reporter.go:425-445 | a run from the start in which a lost answer and a new line make the receiver hold a line twice |
| Ulid.EncodeUlid | agent/internal/fleetlogs/reporter.go:472-489 | the two loops over the array compute the encoding the laws are about |
| Ulid.TimeDecodes | agent/internal/fleetlogs/reporter.go:472-476 | the first ten characters spell the time |
| Ulid.RandomDecodes | agent/internal/fleetlogs/reporter.go:477-487 | every random byte can be read back from the last sixteen |
| Ulid.Injective | agent/internal/fleetlogs/reporter.go:472-489 | equal identifiers come from equal times and equal random parts |
| Ulid.EarlierIsSmaller | agent/internal/fleetlogs/reporter.go:472-489 | an earlier time gives a lexicographically smaller string, whatever the random parts |
| Ulid.AlphabetIs | agent/internal/fleetlogs/reporter.go:447-448 | the digits are the ten figures and the capital letters but I, L, O and U, in rising order |
| ShellWrapper.ExecWrapperScript | wall/src/shim.rs:27-47 | the loop writes the script, or none for an empty environment |
| ShellWrapper.ReadValue | wall/src/shim.rs:45-47 | reading a quoted value adds exactly its characters to the word; no character of it ends the word or the command |
| ShellWrapper.ScriptReads | wall/src/shim.rs:27-47 | read by section 2.2 of POSIX.1-2017 Shell Command Language the script is exactly `export` with one word per variable in order, then `exec "$@"` |
| ShellWrapper.AssignmentSets | wall/src/shim.rs:27-47 | each word splits at its first `=` into the name and the value that were written |
| ShellWrapper.ValidateEnv | wall/src/spec.rs:318-343 | accepts exactly environments of NUL-free values under names of letters, figures and underscores that do not begin with a figure |
| WeightContract.CleanPath | wall/src/spec.rs:359-377 | the push-and-pop loop computes the cleaned path |
| WeightContract.FoldOn | wall/src/spec.rs:362-370 | one component more: empty or a dot is dropped, a name added, two dots take the last one away if there is one |
| WeightContract.CleanIdempotent | wall/src/spec.rs:359-377 | cleaning leaves no empty, `.` or `..` component and changes nothing the second time |
| WeightContract.CleanIsWalkIff | wall/src/spec.rs:353-377 | cleaning leaves the segments of the lexical walk that keeps leading `..` if and only if the walk never rises above its start |
| WeightContract.SameCleanIff | wall/src/spec.rs:353-377 | two paths clean to the same string if and only if both are absolute or both not and they leave the same components |
| WeightContract.BaseIsLast | wall/src/spec.rs:346-352 | the base name is the last component that is left |
| WeightContract.SplitOnceIff | wall/src/spec.rs:213-222 | the two sides of a bind are what stands before and after its first colon |
| WeightContract.SplitBindIff | wall/src/spec.rs:213-222 | a bind is taken apart if and only if it has a colon and neither side is blank |
| WeightContract.BoundAt | wall/src/spec.rs:251-280 | maps each cleaned landing to its hosts if and only if every bind is well formed |
| WeightContract.ValidateWeightFiles | wall/src/spec.rs:251-314 | with a non-empty weight list, accepted if and only if all binds are well formed, all landings distinct, and each declared file has exactly one bind at its landing, mounting that very file |
| WeightContract.ContractOutcome | wall/src/spec.rs:251-314 | the contract spelled out: each bind has a colon and no blank side; each declared file is absolute with a name; exactly one bind lands, cleaned, at that name under `/models`, its host being, cleaned, that file; no two files land in the same place |
| ArgvMerge.SplitArgvItems | agent/internal/backend/hatch_spec.go:1659-1678 | the index loop computes the split the laws are about |
| ArgvMerge.FlattenSplit | agent/internal/backend/hatch_spec.go:1659-1678 | splitting loses nothing of any argv |
| ArgvMerge.SplitFlatten | agent/internal/backend/hatch_spec.go:1659-1678 | flag items survive being flattened and split again |
| ArgvMerge.KeyOutcome | agent/internal/backend/hatch_spec.go:1638-1648 | a flag is keyed by its name, with or without a value after `=`, and `--mmproj` and `--parallel` by their short forms |
| ArgvMerge.ItemsAre | agent/internal/backend/hatch_spec.go:1659-1678 | an argv that begins with a flag splits into one item for each token with a dash in front, in order, with the tokens without one that follow it |
| ArgvMerge.DropFlagItems | agent/internal/backend/hatch_spec.go:1691-1703 | removes exactly the items of one flag |
| ArgvMerge.WithoutExact | agent/internal/backend/hatch_spec.go:1691-1703 | every item under the flag is gone, however often it was there, and no other |
| ArgvMerge.HasExplicitNp | agent/internal/backend/hatch_spec.go:1681-1688 | true if and only if some token declares a slot count |
| ArgvMerge.MergeEngineArgs | agent/internal/backend/hatch_spec.go:1711-1739 | the index-map loop computes the merge the laws are about |
| ArgvMerge.MergeMeaning | agent/internal/backend/hatch_spec.go:1711-1739 | for every adapter argv and every egg argv that is empty or begins with a flag: read back from the resulting argv, any flag has the egg's last setting if it has one, nothing for a `-np` the egg does not declare, and the adapter's setting otherwise; an empty egg argv changes nothing |
| ArgvMerge.MergeOrder | agent/internal/backend/hatch_spec.go:1717-1731 | the adapter's items stay in their places, an egg's setting in place of the adapter's last one for the flag; the egg's other flags follow, each once and in the egg's order |
| ArgvMerge.MergedSplits | agent/internal/backend/hatch_spec.go:1711-1739 | the merged argv splits back into the merged items, whatever positional tokens the adapter begins with |
| ArgvMerge.MergeKeepsUnique | agent/internal/backend/hatch_spec.go:1711-1739 | for all argvs: when the adapter sets no flag twice, no flag occurs twice among the merged items |
| ArgvMerge.MergeUniqueIff | agent/internal/backend/hatch_spec.go:1711-1739 | when the adapter sets no flag twice and the egg's argv is empty or begins with a flag, the resulting argv sets none twice if and only if the adapter's is not empty or the egg sets none twice |

## Left out

Resident-model protocol:

- EggService.StopCutsOff: assumes distinct unit names; the program lowercases, replaces and truncates model names, so two models can share one.
- EggManager.Manager.DoStart: refusals, eviction plans and port numbers are choices of the environment (any plan that names evictable entries), so which of the evictable entries goes is the subject of `EvictionPlan`, not of the protocol.
- The bare-exec start path (hatching switched off), merging of concurrent loads of one model, the wait queue, default pins and the residency ledger are left out.
- `Stop` and the failure-handling steps (fuse, reset, abandon, hard stop) are actions of the machine but have no method here.

Expansion:

- ExpansionDisk.Disk.Expand: one process at a time; interleaved calls are the subject of `ExpansionRace`, where a row, a marker or the removal of the content is one step.
- ExpansionRace.LateLockIff: a lock taken over links that an unclean rollback left behind without a receipt is not decided.
- ExpansionDisk.Disk.LandLink: a landing that a link leads out of the directory may end anywhere, outside or back inside; likewise `ExpansionDisk.Disk.LandFile`. Nothing is promised, without faults, of tables whose rows do that or land on a marker's name.
- Reading the egg's header, slots and table, path rules other than those on links, the modes' bits, power loss below the file system (`fsync`) and the wording of notes and errors are left out. No segment is named like a marker file, and `.complete` itself is not a symbolic link.

Watchdog:

- Watchdog.Judged.HandleGuard: the loop by which the body guard comes to its verdicts is left out; what it does after one is modelled.
- Judgements follow one another (`Watchdog.CourseIsGraceful`): the actions of two judgements on one egg at the same time are not interleaved. Reading the environment and the cgroup is left out.

Resources:

- FitEstimate.EstimateFit: sizes are reals, so rounding of floating-point numbers and 64-bit overflow are not modelled; the wording of the basis is left out.
- EvictionPlan.ToFreeOwn: with a NUL inside a digest or an alias two residents of different names can share a key, and the plan then names the first reported one; likewise `EvictionPlan.ForActionOwn` needs distinct keys, since test, name and size come from the first resident under a key.
- EvictionPlan.EvictVictims: the agent's table has no entry with an empty name.

Parsers and merges:

- Error texts, positions and the parser's recursion depth are left out.
- ShellWrapper.ScriptReads: the reader covers the part of the shell language the script uses and refuses the rest.
- WeightContract.ValidateWeightFiles: which of several faults is reported first is not stated.

Log delivery:

- LogDelivery.Reporter.Scan: the file only grows; truncation and rotation are left out, and positions are counted in complete lines instead of bytes.
- Ulid.EncodeUlid: where the random part comes from is left out, and so is the fallback when the random source fails.

HTTP servers and clients, systemd, bubblewrap and seatbelt calls, `/proc` and cgroup reading, the user interface
and the scripts are not part of this model.
