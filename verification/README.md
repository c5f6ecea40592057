# A verified model of walkman

walkman is a concurrent directory walker for Linux.  A pool of workers takes directories
from a bag of pending items, reads each one with `getdents64`, publishes one batch per
directory on a channel, and puts the subdirectories back into the bag.  Optionally it follows
symbolic links, and then carries a chain of ancestor identities with every item to break
cycles.

This project models its code in Dafny and proves what the code is for.

## The layers

**The lock-free arena.**  `GenericStore.dfy` is the compare-and-swap protocol of
`stores/generic_store.go` as a step machine: any number of goroutines, each with a program
counter, one step per load, compare-and-swap, allocation or slot write, any schedule.
Offsets are `uint64` and the subtraction in the capacity test wraps.  `StoreRuns.dfy` proves
what holds in every run: memory safety, lock-freedom with a count, a bound on a call that is
left alone, and exact space accounting.  `Ancestors.dfy` puts `ancestors.go` on top of it:
pointers that were handed out always read the same finite chain, and `hasCycle` computes
membership in it while other goroutines keep appending.

**The walk.**  `Walk.dfy` says what handling one directory means (`Run`: the batch and the
spawned items) and defines the recursive specification `Spec` of a whole walk.  `Pool.dfy`
is the walk as it runs: a bag of pending items, any number of workers, any schedule, one step
per directory entry, publication before spawning, children pushed one at a time, and one
ancestor list shared by all workers.
`PoolRuns.dfy` has the invariant: events done, plus events owed by busy workers, plus events
of the pending items, always add up to the events of the specification.  `Schedules.dfy`
draws the conclusions for whole runs.

**The walk over the arena.**  `ArenaWalk.dfy` is the same walk with the ancestor store as it
is: workers hold addresses, `pushAncestor` is a run of compare-and-swap steps of the worker's
own goroutine, `hasCycle` one load per step, and any other worker may move between any two of
these.  `Refinement.dfy` proves that every step of it is a step of `Pool.dfy` or changes
nothing the list can tell; a link enters the list when its claim is won.  `ArenaRuns.dfy`
carries the theorems about whole walks over, `ArenaStates.dfy` those about every item in play,
said of the chain read from memory, and `ArenaTime.dfy` bounds the length of every run, failed
swaps included.

**What the walk computes.**  `Termination.dfy` proves that a follow-links walk ends on every
finite file system although plain descent is not checked for cycles, `Crashes.dfy` exactly when
a nil ancestor is dereferenced, and `NulRoots.dfy` exactly when a plain walk never ends.
`Meaning.dfy` says what the options do.  `Cycles.dfy` proves that no path is published twice
and that cycle reports are exact.  `OpenedPaths.dfy` says what `openat` makes of the paths.
`Coverage.dfy` describes the published batches without running anything: which paths are in
scope, and what each batch says.  `TrueBatches.dfy` says what a batch tells of its directory,
record by record and in the kernel's numbers, and `TrueRuns.dfy` that every batch of every run
does; `TopDown.dfy` and `OwnBatches.dfy` that the batches announce each other.  `FiniteFs.dfy` builds concrete file systems of directories
and links and shows that all of them meet the assumptions used elsewhere.

**The sequential machinery of one worker.**  `ReadDir.dfy` parses `linux_dirent64` records,
`StringStore.dfy` and `ResultArena.dfy` are the bump arenas with their memory, `NextFit.dfy`
is the packing they make, `Workers.dfy` is the in-place loop of `visitSym`, and `Visits.dfy`
runs `visit` and `visitSym` on all of it and shows that published batches never change.
`Visits.dfy` starts from the answers of the system calls, and `Shares.dfy` joins the memory of
the workers to the pool: each publishes what it takes, and the walk is the sum.  `Paths.dfy` is path building,
`Chains.dfy` ancestor chains as a growing list.

## Assumptions

* Atomics are sequentially consistent, and a fresh node is zeroed.
* The file system does not change during a walk: `Kernel` answers `readdir` and `stat` by path.
* Termination assumes finitely many directory identities and that plain subdirectories form
  a forest of bounded height below every path without NUL (`Termination.Finite`).  It does not
  assume one device.
* Exact cycle detection assumes one device and directory inodes that agree with `stat` on
  paths without NUL (`Cycles.OneDevice`), because a plain child inherits its parent's device.
* Nothing is assumed of a path that holds a NUL, except where a theorem says so by
  `Termination.StopsAtNul`: `openat` reads such a path up to the NUL, `os.Stat` refuses it.
  A root is `Addressable` if it holds no NUL or the system calls are those.
* Distinct paths assume names that are non-empty, hold neither `/` nor NUL, and occur once in
  their directory (`Cycles.GoodNames`).
* The pool copies the arguments of `spawn` and loses none of them.
* The root path is already cleaned.

Lemmas marked `{:induction false}` are those for which Dafny would add an induction hypothesis
of its own; every induction here is written out, and no proof relies on a guessed one.

## Where the code and its documentation differ

* The documentation says `Entries` is nil only when a directory could not be read
  (the repository's `README.md:132`, `walkman.go:97-98`).  `storeEntries` also returns nil for an empty listing
  (`result_arena.go:48-52`).  A batch keeps to the documentation if and only if its directory
  is not one that could be read but has nothing to show (`Visits.NilMeansUnreadableIff`); an
  empty directory is the simplest such input (`Visits.EmptyShowsNothing`).
* The repository's `README.md:168-180` shows a `dev` field in the work item.  The code has none; the device is
  read through the ancestor pointer (`walkman.go:400`).
* A depth limit of 2^32-1 stops nothing, because `depth+1` wraps before it can exceed the
  limit (`Meaning.LimitIsExactIff`).
* A follow-links walk whose root can be read but not identified by `stat` dereferences a nil
  pointer if the root has a subdirectory to descend into, and in no other case, on any file
  system (`Crashes.CrashIff`).  Such roots exist (`Crashes.CrashHappens`): any directory with a
  subdirectory, named with a NUL and anything behind it.  `os.Stat` refuses that name, while
  `openat` opens what is before the NUL.
* The paths of a walk mean themselves to `openat` if and only if the root holds no NUL
  (`OpenedPaths.PathsOpenInFullIff`).  If it does, every item opens again what the root opened,
  so a plain walk with no depth limit is finite if and only if the root holds no NUL or has no
  subdirectory to descend into (`NulRoots.PlainWalkIsFiniteIff`), and otherwise never completes
  under any schedule (`NulRoots.NulWalkNeverEnds`).

## Model

| member | source | states |
|---|---|---|
| `GenericStore.NewStore` | stores/generic_store.go:52-56 | the initial state satisfies the invariant of the protocol |
| `GenericStore.NoWrap` | stores/generic_store.go:71 | in any reachable state the wrapping capacity test is the comparison of plain numbers |
| `GenericStore.SwapKeepsInv` | stores/generic_store.go:74-82 | the tail swap keeps the invariant, whether it wins or loses the race |
| `GenericStore.ClaimKeepsInv` | stores/generic_store.go:84-90 | the offset swap keeps it too, also on a node that stopped being the tail: the new range overlaps no earlier one |
| `GenericStore.WriteKeepsInv` | stores/generic_store.go:96-109 | writing one slot of a held range disturbs no other range, handed out or not |
| `GenericStore.StepKeepsInv` | stores/generic_store.go:62-109 | every step of every goroutine keeps the invariant |
| `StoreRuns.EveryRunIsSafe` | stores/generic_store.go:36-41 | in every interleaving: ranges are pairwise disjoint, offsets never exceed the node size, returned memory holds exactly the appended values |
| `StoreRuns.HandedOutIsFrozen` | stores/generic_store.go:94-95 | returned memory holds those values in every later state |
| `StoreRuns.CasStep` | stores/generic_store.go:75-88 | a compare-and-swap fails exactly when the snapshot it relies on is stale, and consumes that staleness |
| `StoreRuns.FailuresArePaidFor` | stores/generic_store.go:67-91 | lock-freedom counted: with T goroutines, failed swaps are at most (T-1) times the successful ones |
| `StoreRuns.CallAloneReturns` | stores/generic_store.go:62-109 | from any reachable state, a call left alone returns within its length plus six steps, with one claim of its own values |
| `StoreRuns.AppendOnlyAccounting` | stores/generic_store.go:71-100 | with single-value appends only, every retired node is full, so claims = 1024 * (nodes - 1) + tail offset |
| `Chains.ChainIsFrozen` | ancestors.go:21-27 | adding links never changes a chain that could already be named |
| `Ancestors.StepMirrors` | ancestors.go:28-36 | one step of the arena adds nothing, or exactly one link whose parent is older, to the list of links it refines |
| `Ancestors.EveryRunIsGrown` | ancestors.go:28-36 | every run of pushAncestor calls, interleaved in any way, refines that growing list |
| `Ancestors.EveryPointerHasAChain` | ancestors.go:11-19 | every pointer handed out starts exactly one finite chain in memory |
| `Ancestors.ChainsAreFrozen` | ancestors.go:11-27 | whatever other goroutines append later, the same pointer reads the same chain |
| `Ancestors.HasCycle` | ancestors.go:42-50 | the loop ends and answers membership in the chain as it was when the call began, with arbitrary concurrent appends between any two loads |
| `Paths.SiblingsApart` | stores/string_store.go:107-125 | the subtrees of differently named children share no path |
| `Paths.BelowJoinAll` | stores/string_store.go:107-125 | path building is injective: the names can be read back, also below a root that ends in a separator |
| `Paths.JoinIsOneWay` | stores/string_store.go:107-125 | a text is the joined path if and only if it starts with the parent, ends with the child, has a '/' (byte 47) before the child, and is one byte longer than the two unless the parent already ends in one |
| `Paths.JoinDoublesNothing` | stores/string_store.go:109-112 | the joined path has two separators in a row exactly where its parent has |
| `Walk.EveryEntryAccounted` | walkman.go:334-409 | kept and dropped entries add up to the listing; one error for every entry dropped or not identifiable |
| `Walk.WantedAt` | readdir_linux.go:130-138 | the places, in ascending order, of exactly the names that are not "." or ".." (bytes 46, or 46 46) and not skipped |
| `Walk.FilterPicks` | readdir_linux.go:130-141 | what is filtered out of a listing is the records at these places, in order and unchanged |
| `Walk.SpawnReason` | walkman.go:371-402 | a spawned item has a listed, unskipped subdirectory or link as its reason, the joined path, the next depth and the extended chain |
| `Walk.SpecIsWhole` | walkman.go:265-285 | once the level bound is large enough the recursive specification is the whole walk |
| `PoolRuns.ScanRefines` | walkman.go:336-408 | the loop body on ancestor pointers does what the specification says on chains |
| `PoolRuns.TakeKeepsInv` | walkman.go:313-329 | taking any pending item keeps: done + owed + pending = specified |
| `PoolRuns.PublishKeepsInv` | walkman.go:413-418 | so does publishing, with the children not yet spawned |
| `PoolRuns.SpawnKeepsInv` | walkman.go:420-422 | so does pushing one child |
| `PoolRuns.StepKeepsInv` | walkman.go:313-425 | every step of every worker keeps it |
| `Schedules.CompletedWalkPublishesSpec` | walkman.go:449-472 | for any number of workers and any schedule, a completed walk has published exactly the multiset of batches of the specification |
| `Schedules.EveryScheduleTerminates` | walkman.go:445-448 | no schedule is longer than the specified events, and a walk is complete exactly when it has taken that many steps |
| `Schedules.WorkLeftMeansAStep` | walkman.go:445-448 | no walk gets stuck while work is left |
| `Schedules.ReachableItemsAreOk` | walkman.go:313-425 | what spawning keeps, every item in play in a reachable state has: pending, in the hands of a worker, or about to be pushed |
| `Termination.SpawnDescends` | walkman.go:371-402 | below a path without NUL every spawn lowers (identities not yet on the chain, plain height below) lexicographically, and its path holds none either |
| `Termination.PlainWalkIsFinite` | walkman.go:244-288 | from a root without NUL a plain walk has at most as many levels as the plain tree is high |
| `Termination.FollowingWalkIsFinite` | walkman.go:371-402 | with D identities and plain height below H, an unlimited follow-links walk has at most D*H levels; from a root with a NUL, which the system calls cut off or refuse, it is finite too |
| `Termination.AncestorChainsAreShort` | walkman.go:392-402 | in every reachable state the ancestor chain of every item in play is at most D*H long, although an identity may repeat |
| `Termination.LimitedWalkIsFinite` | walkman.go:331 | a depth limit alone bounds the walk, on any file system |
| `Termination.DepthsStayWithinLimit` | walkman.go:380-395 | in every reachable state of a limited walk no item in play is deeper than the limit, so the next depth never wraps |
| `Termination.FollowingWalkIsCorrect` | walkman.go:313-425 | follow-links on a finite file system: every schedule ends, after the same number of steps, with the specified batches |
| `Crashes.CrashIff` | walkman.go:400 | on any file system, some schedule dereferences a nil ancestor if and only if links are followed and the root was readable, not identified by stat, and has a subdirectory to descend into |
| `Crashes.CrashHappens` | walkman.go:460-468 | it does so on a finite file system whose directory can be walked safely, from the same directory named with a NUL and anything behind it |
| `NulRoots.PlainWalkIsFiniteIff` | walkman.go:244-288 | where openat stops at NUL, an unlimited plain walk of a finite file system is finite if and only if its root holds no NUL or has no subdirectory to descend into |
| `NulRoots.EveryFsPlainWalkIsFiniteIff` | walkman.go:244-288 | the same for every concrete finite file system, walked from any path whatever |
| `NulRoots.NulWalkNeverEnds` | walkman.go:244-288 | from such a root no schedule of any number of workers is ever complete, and none is ever stuck |
| `Meaning.DepthLimitSelects` | walkman.go:267-269 | on the specification, a limit m keeps exactly the directories at depth m and above, in both modes |
| `Meaning.LimitedWalksAgree` | walkman.go:267-269 | any completed run limited to m publishes exactly the batches any completed unlimited run publishes for directories at depth m and above, on any workers and schedules |
| `Meaning.LimitIsExactIff` | walkman.go:331 | the wrapping depth test is right at every allowed depth if and only if the limit is not 2^32-1, which never stops anything |
| `Meaning.SkippingIsErasure` | readdir_linux.go:130-138 | on the specification, skipping names is walking without skips the file system whose listings lack them |
| `Meaning.SkippingWalksAgree` | readdir_linux.go:130-138 | any completed run with skips publishes what any completed run without them publishes on the erased file system |
| `Meaning.LinkFreeWalksAgree` | walkman.go:237-424 | on the specification, a tree without links is walked alike whether links are followed or not |
| `Meaning.LinkFreeRunsAgree` | walkman.go:237-424 | without links, any completed run that follows them publishes what any completed plain run publishes |
| `Cycles.DirsAreDistinct` | walkman.go:271-281 | no directory path is published twice, in either mode |
| `Cycles.ChainsNameLogicalPaths` | walkman.go:392-401 | in every reachable state the chain of an item in play lists exactly the identities of the directories on its logical path |
| `Cycles.CyclesAreExact` | walkman.go:371-374 | a completed walk reports a link as a cycle if and only if it leads to its own directory or a logical ancestor |
| `Coverage.SpawnIsStep` | walkman.go:371-402 | what is spawned is a listed subdirectory, or a link to a directory that is not a logical ancestor |
| `Coverage.StepIsSpawned` | walkman.go:371-402 | and all of these are spawned, unless the depth limit is reached |
| `Coverage.RunReports` | walkman.go:336-419 | on one device the published batch depends on the directory's path alone, not on the chain or the worker |
| `Coverage.CompletedWalkCovers` | walkman.go:449-472 | under any schedule: a batch for every path in scope and for no other, never two, each saying exactly what its directory should report |
| `Coverage.EveryFiniteFsIsCovered` | walkman.go:449-472 | the same for every concrete finite file system and root without NUL, on one device if links are followed, and every depth limit but 2^32-1 |
| `TrueBatches.LinkToFileIsShown` | walkman.go:361-369 | a followed link to anything but a directory is shown once with its own name and inode, its type 8 iff it leads to a file, 10 iff to a link, 0 otherwise |
| `TrueBatches.RunIsTrue` | walkman.go:244-425 | handling an item publishes a true batch: entries and errors tell, in listing order, of exactly the wanted records, each entry with the batch's directory as its own and the record's name, inode and type (of the target, for a followed link), each error with its cause; or the one failure to read it |
| `TrueBatches.EntryHasRecord` | readdir_linux.go:130-141 | no entry of a true batch is named "." or ".." or a skipped name, and each shows a listed record |
| `TrueBatches.RecordIsTold` | readdir_linux.go:130-141 | every other listed record, hidden files included, is shown or reported |
| `TrueRuns.EveryBatchIsTrue` | walkman.go:244-425 | every batch published at any moment of any run on any file system is true, whether or not the walk ends |
| `TrueRuns.EveryArenaBatchIsTrue` | walkman.go:244-425 | so it is over the arena |
| `TopDown.ParentsArePublishedFirst` | walkman.go:264-285 | at any moment of any run, every published directory but the root was listed, as an entry of type 4, by a batch published before its own |
| `TopDown.ArenaParentsArePublishedFirst` | walkman.go:413-422 | over the arena too |
| `OwnBatches.EntryIsWalkedIff` | walkman.go:267-285 | in a completed walk an entry of a published batch has a batch of its own if and only if its type is 4 and the depth limit leaves room below its directory |
| `OwnBatches.ArenaEntryIsWalkedIff` | walkman.go:379-402 | over the arena too |
| `FiniteFs.EveryFsIsFinite` | walkman.go:449-467 | every concrete file system of finitely many directories and links, reached by system calls that stop at NUL, meets the finiteness and naming assumptions |
| `FiniteFs.EveryFsWalkIsFinite` | walkman.go:371-402 | its follow-links walk has at most directories times ranks levels |
| `FiniteFs.EverySingleDeviceFs` | walkman.go:396-400 | on one device the assumption of exact cycle detection is met |
| `ReadDir.LeRoundTrip` | readdir_linux.go:57-64 | little-endian fields decode to what was encoded |
| `ReadDir.Decode` | readdir_linux.go:109-128 | inode, length, type and NUL-delimited name are recovered from an encoded record, and the rest of the buffer is what follows it |
| `ReadDir.RecordLayout` | readdir_linux.go:57-64 | byte by byte: inode in bytes 0 to 7 and record length in 16 and 17, lowest byte first, type in byte 18, name from byte 19 to a NUL or the end |
| `ReadDir.ParseBuffer` | readdir_linux.go:107-145 | one buffer delivers its wanted records in order up to the first refusal, each with its own name, type and inode, reading only the bytes the call wrote |
| `ReadDir.ReadDirRaw` | readdir_linux.go:75-148 | a whole directory: of the records of all calls before one fails or returns nothing, the wanted ones are called back with in order, each with its own name, type and inode; the first refused is the last, and its answer is returned; if none is refused all are delivered, and the error returned is that of open or of the failed getdents64 call, if any |
| `ReadDir.BatchingDoesNotMatter` | readdir_linux.go:88-147 | for any callback: however the records were split into buffers, what is delivered and returned is what one buffer with all of them would give, then the error of the system call |
| `ReadDir.ToldInFull` | readdir_linux.go:88-105 | calls that return records add them all to what the rest tells |
| `ReadDir.ToldEnds` | readdir_linux.go:98-104 | the first call that fails ends the reading with its error, the first that returns nothing ends it with none, and nothing behind it is told |
| `ReadDir.FirstRefusalStopsAll` | readdir_linux.go:98-143 | over a whole directory read in any number of buffers, delivery stops exactly at the first refusal, or else at the error of the system call |
| `ReadDir.FirstRefusalStops` | readdir_linux.go:141-143 | of one list of records a prefix of the wanted ones is delivered; an error was the answer to the last of them and to no earlier one |
| `NextFit.NeighboursOverflow` | stores/string_store.go:42-50 | consecutive nodes of a packing together hold more than one node's worth, no node is overfull, and nothing is lost |
| `NextFit.HalfTheNodesAreFull` | result_arena.go:58-67 | k nodes of a packing hold more than floor(k/2) nodes' worth |
| `NextFit.AtMostTwiceAnyPacking` | result_arena.go:58-67 | a next-fit packing needs at most twice the nodes of any packing of the same requests |
| `StringStore.Store.EnsureCap` | stores/string_store.go:38-52 | the claimed bytes are zero and lie behind everything handed out; the request joins the packing |
| `StringStore.Store.PackingBounds` | stores/string_store.go:42-50 | of any valid arena: neighbouring nodes hold more than one node, k nodes more than floor(k/2), and at most twice the nodes of any packing of its claims were opened |
| `StringStore.Store.StoreBytes` | stores/string_store.go:57-61 | the new string says the bytes; every string handed out before still says what it said |
| `StringStore.Store.StoreStringZ` | stores/string_store.go:77-82 | the same, with a NUL behind it that nothing overwrites |
| `StringStore.Store.StorePath` | stores/string_store.go:87-104 | the new string is the join of parent and child, and in memory reads as the two with one '/' between them |
| `StringStore.Store.StorePathZ` | stores/string_store.go:107-125 | the same, with a zero byte behind it that nothing overwrites |
| `StringStore.NewStringZ` | stores/string_store.go:131-136 | a string of its own with a NUL behind it |
| `ResultArena.EntryArena.StoreEntries` | result_arena.go:48-69 | the slice holds exactly the items in memory of its own; earlier slices keep their contents across node switches and oversized requests |
| `ResultArena.EntryArena.PackingBounds` | result_arena.go:58-67 | the same bounds for the entry arena and the listings it stored |
| `ResultArena.ErrLog.StoreDirErr` | result_arena.go:99-104 | the log grows by the error; earlier slices keep their contents also when the log moves |
| `ResultArena.ErrLog.SliceDirErr` | result_arena.go:106-108 | the slice holds exactly the errors since the mark and shares memory with no earlier slice |
| `Workers.ReadEntries` | walkman.go:227-242 | the reused scratch ends up with the delivered entries in order, every name is a string of the arena, and the flag says whether one is a link |
| `Workers.Keep` | walkman.go:355-406 | writing an entry back at the kept position clobbers no entry not yet read; skipping the write is sound when the positions agree |
| `Workers.ResolveLink` | walkman.go:336-388 | resolving one link keeps, reports and spawns what the specification says |
| `Workers.OneEntry` | walkman.go:333-408 | one iteration keeps the compaction invariant and appends that entry's verdict |
| `Workers.ResolveInPlace` | walkman.go:331-409 | the single in-place pass equals the pure filter-map over the original listing, with errors and children in listing order and every child path NUL-terminated |
| `Workers.TerminatedInMemory` | walkman.go:29-32 | a path once stored for a child is in memory, now, and openat reads it from there up to its first NUL: all of it if and only if it holds none |
| `Visits.PlainChildren` | walkman.go:271-281 | the second half of visit spawns exactly the subdirectories among the published entries |
| `Visits.Worker.Visit` | walkman.go:244-288 | visit publishes the specified batch, with nil entries exactly when there are none, spawns the specified items, and leaves every earlier batch, name and path as it was |
| `Visits.Worker.VisitSym` | walkman.go:313-425 | so does visitSym |
| `Visits.Worker.Execute` | walkman.go:205-208 | what the pool executes for an item, from the answers of openat and getdents64 to the batch, which reads from memory as specified and true, and the spawned items; if a call fails the batch is that one error with nil entries |
| `Visits.FailedCallIsReported` | walkman.go:254-259 | if openat or any getdents64 call fails, the batch is that error alone, also when records were read before it, and nothing is spawned |
| `Visits.RecordsAreListed` | readdir_linux.go:107-145 | if none fails, the listing has the name, type and inode of each record the calls returned, in order |
| `Visits.RawDelivers` | walkman.go:227-242 | what readDirRaw delivers to readEntries is the whole filtered listing, or it returns the error the directory is reported with |
| `Visits.Worker.HandleAll` | walkman.go:205-208 | a worker given any items in any order has published their specified batches, in that order, all still readable, and the paths of all spawned items are still in memory, NUL-terminated |
| `Visits.Worker.BatchesReadBack` | walkman.go:100-104 | every batch ever published still reads as it did when published, and no two share memory |
| `Shares.WalkIsTheSumOfShares` | walkman.go:192-208 | in a completed walk each worker has published the batches of exactly the items it took, in that order, and the walk is the sum of these shares |
| `Shares.HandleShare` | walkman.go:100-104 | a worker that handles its share holds a batch for each of the share in its own arenas, and each reads back as it was published |
| `Visits.NilMeansUnreadableIff` | result_arena.go:48-52 | nil entries mean an unreadable directory, as documented, if and only if the directory is not one that could be read but has nothing to show |
| `OpenedPaths.PathsOpenInFullIff` | readdir_linux.go:26-48 | in every reachable state the path of every item in play is NUL-free if and only if the root is; otherwise openat opens for each what it opened for the root |
| `OpenedPaths.NoSeparatorIsDoubled` | stores/string_store.go:109-112 | in every reachable state the path of every item in play continues the root's text and has two separators in a row exactly where the root has |
| `Refinement.StepRefines` | walkman.go:313-425 | every step of the walk over the compare-and-swap arena is the same worker's step of the walk over the list, or changes nothing the list can tell |
| `Refinement.PushWins` | stores/generic_store.go:84-90 | the winning swap of a claim is the moment the list grows, by exactly the pushed link with its parent |
| `Refinement.CheckRefines` | ancestors.go:42-50 | one load per step, with any steps of others in between, hasCycle decides as the list says |
| `ArenaRuns.EveryArenaRunIsAPoolRun` | walkman.go:313-425 | every run over the arena has a run over the list that sends the same batches in the same order and is complete when it is |
| `ArenaRuns.CompletedArenaWalkPublishesSpec` | walkman.go:449-472 | over the arena too, a completed walk has published exactly the specified batches, for any interleaving of loads, swaps and slot writes |
| `ArenaRuns.ArenaWalkNeverCrashes` | ancestors.go:42-50 | in any run, ending or not, no worker loads through nil or through an address that holds no link, unless the root is the one that crashes |
| `ArenaRuns.EveryFiniteFsIsCoveredByArenaWalks` | walkman.go:449-472 | and the batches are those of exactly the paths in scope, for every concrete finite file system and root without NUL, on one device if links are followed, and every depth limit but 2^32-1 |
| `ArenaStates.ReachableWorkIsOk` | walkman.go:28-40 | in every reachable state, what spawning keeps holds of every item in play, with the chain read from memory at its address |
| `ArenaStates.ArenaChainsAreShort` | walkman.go:392-402 | in memory too, every ancestor chain is at most D*H long |
| `ArenaStates.ArenaDepthsStayWithinLimit` | walkman.go:380-395 | no worker over the arena ever holds an item deeper than the limit |
| `ArenaStates.ArenaChainsNameLogicalPaths` | ancestors.go:11-27 | in memory too, the chain of an item lists exactly the directories on its logical path |
| `ArenaStates.ArenaPathsOpenInFullIff` | readdir_linux.go:26-48 | and its path opens in full if and only if the root's does |
| `ArenaStates.ArenaPathsDoubleNothing` | stores/string_store.go:109-112 | nor is a separator doubled in it |
| `ArenaTime.ClockTicks` | stores/generic_store.go:67-91 | every step of a call, lost or won, advances a clock made of claims, losses and places in the loop |
| `ArenaTime.ClockBound` | stores/generic_store.go:67-91 | that clock is bounded by the number of claims and goroutines alone |
| `ArenaTime.EveryArenaScheduleTerminates` | walkman.go:445-448 | no schedule of the walk over the arena is longer than an explicit bound, however many swaps fail |
| `ArenaTime.ArenaWorkLeftMeansAStep` | walkman.go:445-448 | and none gets stuck while work is left |

## Left out

- The pool itself (deques, stealing order, parking, channel close, context cancellation): it is
  another library.  Here it is a bag from which any idle worker takes any item.
- Weak memory, the garbage collector, and `spinOrYield`: no effect on the modelled state.
- System calls and unsafe casts: `readdir` and `stat` are functions of the path, and
  `getdents64` an arbitrary supply of buffers.
- Limits of real path resolution (ELOOP, PATH_MAX): a failing `stat` is one of the answers.
- ReadDir.ParseBuffer: record lengths between 1 and 18, which the kernel never produces, are
  not modelled; length zero is.
- Cycles.CyclesAreExact: not claimed across mount points, where the inherited device makes
  chain identities approximate.
- Coverage.CompletedWalkCovers: not claimed for a follow-links root that `stat` cannot
  identify; `Crashes.CrashIff` says what happens there.
- Coverage.EveryFiniteFsIsCovered: not claimed for a root that holds a NUL; such a plain walk
  is finite only if `NulRoots.PlainWalkIsFiniteIff` says so.
- Visits.Worker.VisitSym: ancestor links are chains by value here; addresses in the shared
  arena, and the steps of pushAncestor and hasCycle, are the subject of `ArenaWalk`.
- Workers.ResolveLink: likewise decides a cycle on the chain as a value.
- ResultArena.ErrLog.StoreDirErr: the log doubles its capacity; the real growth policy may
  reserve more.
- `StoreString`, which does what `StoreBytes` does.
- A directory is listed in one step of the pool, and a plain visit computes its children in
  that same step; nothing else can observe the difference while the file system is static.
- `filepath.Clean`, the `Entry` accessors and file modes, pool configuration, the command line
  program, the Rust programs and the benchmarks.
