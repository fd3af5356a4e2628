# Verified models of the expanse repository

Dafny models of the parts of the repository whose correctness depends on histories: concurrent
steps, crashes, streams of events and accounting over process tables. Each model does what the
code does, step by step, and its theorems hold for every input, every run and every interleaving.

## What is modelled

**The 32-bit concurrent surface** (`Sync32Tree`, `Sync32`, `Sync32Inv`, `Sync32Theorems`,
`Sync32Reclaim`, `Sync32Limits`, `Sync32Parked`). One writer, any number of readers, every interleaving of single loads and stores.
A reader is a state machine over its loads and validations; a load made after the version moved on
may return any word at all. The writer's `try_reclaim`, headroom checks, bracket, edits and
publication are separate steps. Steps interleave but are never reordered, because the surface's
contract is one hart (`include/expanse.h:288-290`). Answers of readers are answers of the map at an
instant inside the walk, nothing a walk holds is freed under it, operations take effect as their
sequential meaning says, and an admitted mutation never runs out of room.

Two statements of the header do not match the code, and the model follows the code.
The header says that freed nodes stay parked until every reader is observed outside a walk
(`include/expanse.h:265-266`). The code frees a group it sealed once each reader has left the walk
it was in at the seal, whether or not it was ever seen outside: `FreedUnseen` is a run that frees a
node although every counter load found the reader inside. What does hold in every run, with no bound
on the version, is that each reader was outside a walk at some instant between the parking and the
freeing (`FreedAfterOutside`), which is the module comment's own claim
(`crates/expanse/src/sync32.rs:27-37`). And a freed handle is reusable at once while its memory is
still parked: live plus free handles always make up the capacity the run started with, so live,
parked and free nodes together make it up exactly when no node is parked (`NodesAddUpIff`), and
`ParkedIsExtra` is a run that rests above it.

What the all-outside scan frees, each reader was seen outside of; only the grace check frees unseen
(`ScanFreesSeen`).

The version word wraps at 2^32. The invariant, the writer's theorems and the reclamation theorems hold
in every run all the same. A reader's answer and its use of memory depend on its own validations
alone: they are right as long as none of them falls where the version has moved on by a positive
multiple of 2^32 since the walk's sample, and every such distance breaks them in some run
(`AnswersRightIff`, `NeverDanglesIff`, by the runs `StalledAcrossWrap` and `DanglingAcrossWrap`). A walk
that spans fewer than 2^31 brackets has no such validation (`ShortWalkNeverMissed`). In debug builds the
code asserts less than that: its version word has moved by less than 2^30, which is 2^29 brackets,
since the writer's last snapshot.

**CPU accounting of the host guard** (`HostGuard`, `ProcHistory`, `HostGuardTheorems`, `ReapedCpu`,
`HostGuardWindow`, with sums over sets in `Sums`). The kernel is a sequence of ticks, forks, exits
with reparenting, reaps and silent discards; the guard sees two samples. For any history at all the
reading equals what foreign processes ran, plus what crossed between the accounts, less what the CPU
hidden behind skipped pids grew by; the run's own CPU and the CPU of reaped processes have identities of the
same kind (`OwnIdentity`, `ReapedIdentity`). In a tame window, where no process of the run is orphaned or
reaped outside its tree, the crossing terms vanish. What stays hidden is the CPU of a foreign process
under a pid the run also used in the window: a child of the run is reaped, its pid goes to a foreign
process, and the guard skips that pid, new start time or not. `SwapIsReadTooLow` gives the family of
such windows, read as 0; where no pid is swapped the readings are the truth (`UnswappedIsExact`).

**The benchmark lock** (`BenchLock`, `BenchLockRuns`). Wrappers and old-style runners taking one
system call at a time, each killable before any of them, with pids given out again. Wrappers exclude
each other in every run. Old and new runners are kept apart exactly under three guarantees: no
old-style `mkdir` falls between a wrapper's look and its removal, an old runner opens its owner file
within the grace period, and no wrapper looks between that and the write. The last is there because
an owner file that holds no pid is taken for a leftover at any age (`scripts/bench_lock.py:174-183`).

**The load windower and the report's sweep** (`Provenance`, `Windower`, `WindowerTheorems`,
`WindowerRecord`, `Sweep`). The windower is a class over the source's fields, proved against a
state function; its windows are shown to cut the completed cases of any stream into consecutive
runs.

**The frequency governor** (`Governor`, `GovernorRun`, `GovernorTheorems`). A write-ahead undo log
over per-CPU policy, the helper that can stop after any CPU, and the hardware coupling of the two
knobs. The state file is rewritten in place, by `apply` a second time once the governor has changed
and by `restore` at its end, and a rewrite cut short leaves a file that no longer parses; `restore`
takes that for a run that changed nothing and exits 0. So a zero exit means that everything is back
exactly when the file could be read or nothing was left to undo (`ZeroExitIff`); `TornRecord` is the
run in which it could not. A record that an earlier run left and `apply` never replaced is undone in
its place (`LeftoverIff`).

**Read-modify-write on one key** (`WordUpdate`, `MetaUpdate`). Threads running the two retry loops
the header documents, beside every other caller. The word loop is not an increment in every run:
after a compare that fails on an absent key, `seen` is left unwritten and the next round adds one to
whatever it held. The model says exactly when each store is one increment; the metadata loop is
shown to be immune, because an absent key is refused.

**Ordered walks, iterators, navigation and pruning** (`OrderedWalk`, `StringNav`, `BlobPrune`).

**Judging a run by its samples** (`RunSummary`). The pause record, the samples it excuses, the gaps.

**The BCa interval** (`Bca`, `BcaInterval`, `BcaReversed`), over the reals, with the normal distribution as two
monotone functions.

**The allocator-overhead gate** (`OverheadGate`), fail closed, run by run.

**CPU lists** (`Decimal`, `CpuList`), and the common option type (`Options`).

## Model

| member | source | states |
|---|---|---|
| Sync32Tree.SoloOnTrack | crates/expanse/src/trie32.rs:4715-4961 | A validated load keeps a walk on the way to the answer of a reader running alone on the memory it sampled, with what it names allocated there, or gives up |
| Sync32Inv.ReaderKeeps | crates/expanse/src/sync32.rs:423-448 | Every pin, sample, racy load, validation and unpin of any reader keeps the protocol invariant |
| Sync32Inv.StepTracks | crates/expanse/src/trie32.rs:4715-4961 | Each of these steps keeps the reader's walk on track, unless it is a validation that passes although the version has moved on |
| Sync32Inv.ScanKeeps | crates/expanse/src/sync32.rs:510-521 | Each counter load of the all-outside scan, and the drain behind it, keeps the invariant |
| Sync32Inv.GraceKeeps | crates/expanse/src/sync32.rs:522-547 | Each counter load of the grace-period check, and the prefix drain behind it, keeps the invariant, with readers pinning and unpinning in between |
| Sync32Inv.SealKeeps | crates/expanse/src/sync32.rs:548-557 | A new snapshot taken one counter at a time makes every reader either still in its recorded walk or clear of all that is sealed |
| Sync32Inv.EditKeeps | crates/expanse/src/trie32.rs:1663-1703 | Allocating, storing, freeing and retiring inside the bracket keep the invariant; the headroom found before it covers every edit |
| Sync32Inv.PublishKeeps | crates/expanse/src/sync32.rs:563-586 | Republishing the root, then the length, then closing the bracket keeps the invariant |
| Sync32Inv.RunInv | crates/expanse/src/sync32.rs:12-37 | Every state of every run satisfies the invariant, however often the version word has wrapped |
| Sync32Theorems.WalkTracks | crates/expanse/src/sync32.rs:18-25 | In every run a reader that has missed no validation of its own walk is on the way to the answer of a reader running alone on what it sampled, whatever other readers do |
| Sync32Theorems.ReadsLinearize | include/expanse.h:248-257 | A reader's answer other than Busy is the map's own answer at an instant inside its walk, if no validation of that walk fell a positive multiple of 2^32 versions after its sample |
| Sync32Theorems.NoUseAfterFree | crates/expanse/src/sync32.rs:27-37 | Under the same condition on its own walk, every allocation a reader holds is live or still parked |
| Sync32Theorems.ShortWalkNeverMissed | crates/expanse/src/sync32.rs:538-545 | A walk that spans fewer than 2^31 brackets meets the condition |
| Sync32Theorems.OpenBracketIsBusy | include/expanse.h:249-255 | A sample or validation that meets an open bracket answers Busy in that very step, however long the walk has lasted |
| Sync32Theorems.SampleInstant | crates/expanse/src/sync32.rs:18-25 | The walk a reader is in sampled the map at a state of the run since which it has been in that walk |
| Sync32Theorems.OperationsLinearize | crates/expanse/src/sync32.rs:610-730 | A mutation that answers took effect exactly as its sequential meaning says, in at most one bracket; a refused one changed neither map, memory, free list nor version |
| Sync32Theorems.BacklogMeansStalledReader | crates/expanse/src/sync32.rs:486-497 | The backlog refusal is only given after a reader was seen inside a walk during the operation |
| Sync32Theorems.QuietReadersDrain | crates/expanse/src/sync32.rs:34-37 | With every reader outside, one scan frees everything parked |
| Sync32Theorems.PassedReadersDrain | crates/expanse/src/sync32.rs:30-34 | Once every reader has left its recorded walk exactly the sealed prefix is freed, even with readers inside new walks |
| Sync32Theorems.StuckReaderBlocks | crates/expanse/src/sync32.rs:523-532 | A reader still in its recorded walk stops the check with nothing freed |
| Sync32Theorems.CapacityConserved | include/expanse.h:259-268 | In every reachable state the table is as long as the run's capacity, live plus free handles make it up, the pending list keeps its bound, and no admitted mutation runs out inside its bracket |
| Sync32Theorems.CheckPassesIff | crates/expanse/src/occ32.rs:93-100 | The version check passes exactly when the version has not moved or has moved by a positive multiple of 2^32 |
| Sync32Limits.AnswersRightIff | crates/expanse/src/occ32.rs:93-100 | Validating only at given distances makes the answers right in all runs exactly when none of the distances is a positive multiple of 2^32 |
| Sync32Limits.NeverDanglesIff | crates/expanse/src/sync32.rs:27-37 | And exactly then no walk of any run holds memory that is neither live nor parked |
| Sync32Limits.StalledAcrossWrap | crates/expanse/src/sync32.rs:538-545 | For each such distance, a run whose only validation falls on it and that answers a value the map never held |
| Sync32Limits.DanglingAcrossWrap | crates/expanse/src/sync32.rs:538-545 | And one whose walk holds an allocation that does not exist |
| Sync32Reclaim.FreedAfterOutside | crates/expanse/src/sync32.rs:27-37 | In every run, for every step that frees an allocation and every reader, there is an instant between its parking and that step at which the reader was outside a walk |
| Sync32Reclaim.ScanFreesSeen | crates/expanse/src/sync32.rs:510-547 | Only the all-outside scan and the grace check free anything; what the scan frees, it saw each reader outside while it was parked |
| Sync32Parked.FreedUnseen | crates/expanse/src/sync32.rs:522-547 | A run that frees a node although at every counter load the reader was inside a walk |
| Sync32Parked.NodesAddUpIff | crates/expanse/src/trie32.rs:1686-1703 | In every reachable state live, parked and free nodes make up the capacity exactly when no node is parked, and exceed it by those that are |
| Sync32Parked.GroupsAddUpIff | crates/expanse/src/trie32.rs:1686-1703 | The same with every parked group counted: exactly when the pending list is empty |
| Sync32Parked.ParkedIsExtra | crates/expanse/src/trie32.rs:1686-1703 | A run at rest between operations in which live, parked and free nodes exceed the capacity |
| HostGuard.Descendants | scripts/bench_host_guard.py:381-392 | The worklist loop returns the least set holding the root and closed under children, whatever cycles the table has |
| HostGuard.Attribute | scripts/bench_host_guard.py:514-606 | The loops compute the clamped class sums, and the sum over the pinned CPUs, as sums over exactly the visited pids |
| ProcHistory.AccountStep | scripts/bench_host_guard.py:395-406 | One kernel event changes a side's account by the ticks it ran and by what crossed between accounts, nothing else |
| ProcHistory.AccountConserved | scripts/bench_host_guard.py:395-406 | Over every history: account after equals account before, plus ticks run, plus what crossed |
| HostGuardTheorems.TreeIsOwn | scripts/bench_host_guard.py:381-392 | In a rooted state the descendants of the root are the run's own processes, the guard aside |
| HostGuardTheorems.OwnIdentity | scripts/bench_host_guard.py:395-441 | For every legal history, and any sets taken for the tree, own CPU reads as the ticks the run ran, plus what crossed, plus what the sets' error grew by, clamped at zero; exact exactly when these extra terms cancel or the clamp hides them |
| HostGuardTheorems.OwnTicksExact | scripts/bench_host_guard.py:395-441 | In a tame window the change in tree ticks is exactly the ticks the run's processes ran, each counted once through forks, exits, orphans and reaps |
| HostGuardTheorems.ForeignIdentity | scripts/bench_host_guard.py:556-600 | For every legal history the judged sum is the foreign ticks, plus what crossed between accounts, less the change of what hides behind skipped pids |
| HostGuardTheorems.ForeignReadIff | scripts/bench_host_guard.py:556-600 | For every legal history the judged sum is the truth exactly when what crossed is what the hidden CPU grew by, and too low exactly when it is less |
| HostGuardTheorems.HiddenIff | scripts/bench_host_guard.py:559-560 | Some CPU is hidden exactly when a foreign process under a skipped pid has used any |
| HostGuardTheorems.ForeignExact | scripts/bench_host_guard.py:556-600 | In a tame window the unclamped class sums are the foreign ticks less what the hidden CPU grew by: exact exactly when it did not change, never too low exactly when it did not grow; clamping only raises them |
| ReapedCpu.ReapedIdentity | scripts/bench_host_guard.py:557-591 | For every legal history with new start times the reaped sum is the in-window CPU of foreign processes reaped, plus what crossed the edge of the run, plus what is read of the run's own pids, less what the pids skipped would have added |
| ReapedCpu.ReapedExact | scripts/bench_host_guard.py:557-591 | In a tame window with new start times the reaped sum is the in-window CPU of the foreign processes reaped in it, through reaping chains of any length, less what skipped pids would have added, and exact exactly when that is nothing |
| ReapedCpu.SkippedIsHidden | scripts/bench_host_guard.py:557-591 | What skipped pids would have added is the reaped CPU they hide at the end less all the CPU they hid at the start |
| HostGuardWindow.Assess | scripts/bench_host_guard.py:412-463 | A window below the minimum is refused; otherwise the readings are those of the descendants at both ends |
| HostGuardWindow.WindowExact | scripts/bench_host_guard.py:412-463 | What a tame window reads: own exactly, foreign too low by no more than the hidden CPU grew, reaped CPU on the pinned sum off by what the hidden pids account for |
| HostGuardWindow.UnswappedIsExact | scripts/bench_host_guard.py:412-463 | Where no pid is the run's at one end and a foreign process's at the other, it reads the truth: own exactly, foreign never too low, reaped CPU exactly on the pinned sum |
| HostGuardWindow.SwapIsReadTooLow | scripts/bench_host_guard.py:448-451 | Whenever a reaped child's pid goes to a foreign process, which runs for a tick under a new start time, the guard reads no foreign CPU at all |
| HostGuardWindow.SwapCanHappen | scripts/bench_host_guard.py:448-451 | A process table from which that happens |
| BenchLock.OneWrapper | scripts/bench_lock.py:213-247 | In every run, with kills anywhere, at most one wrapper is past a successful flock |
| BenchLock.MirrorNamesHolder | scripts/bench_lock.py:308-315 | With pids reused: the live wrapper a mirror names holds the flock exactly when the mirror is its own, not a leftover of an earlier process with its pid, or it is just checking the mirror |
| BenchLock.ReclaimSparesWrappers | scripts/bench_lock.py:186-192 | No wrapper about to remove the mirror removes one that names another live wrapper |
| BenchLock.NeverTogether | scripts/bench_lock.py:166-192 | Under the three guarantees old and new runners never run together, in any run |
| BenchLockRuns.LookRace | scripts/bench_lock.py:229-240 | Without the first guarantee, a run in which an old-style `mkdir` between look and removal makes them run together |
| BenchLockRuns.SlowOwner | scripts/bench_lock.py:174-179 | Without the second, a run in which an owner file opened after the grace period does |
| BenchLockRuns.HalfRecord | scripts/bench_lock.py:174-183 | Without the third, a run in which an owner file that is open but still empty does, in a young directory |
| BenchLockRuns.ApartIff | scripts/bench_lock.py:166-240 | They are kept apart in all runs exactly when all three guarantees are given |
| BenchLockRuns.ReusedPid | scripts/bench_lock.py:180-183 | A run in which the mirror names a live wrapper that does not hold the flock, because it was given the pid of a killed one |
| BenchLockRuns.OwnPidRefuses | scripts/bench_lock.py:180-183 | Such a wrapper is refused by its own pid at every poll |
| BenchLockRuns.FirstPassIff | scripts/bench_lock.py:219-246 | Left alone, a fresh acquire succeeds on its first pass exactly when no descriptor holds the flock and nobody, its own pid included, holds the mirror |
| BenchLockRuns.RecoversFromCrash | scripts/bench_lock.py:166-192 | From every reachable state with no live process the next acquire succeeds on its first pass and owns both locks, exactly unless the path is no directory, is a young directory without an owner file, or names the pid the new process was given |
| Windower.Recorder.Feed | scripts/bench_windowed.py:105-139 | The fields after one mark are those of the state function |
| Windower.Recorder.Finish | scripts/bench_windowed.py:147-170 | The fields after finishing are those of the state function, complaints included |
| WindowerTheorems.StreamReads | scripts/bench_windowed.py:105-139 | On every stream the windows are a cut of the completed cases, each closed at the first case that resolves it, and the rest is what waits |
| WindowerTheorems.NothingLost | scripts/bench_windowed.py:105-145 | On every stream recorded ids plus ids in hand are the accepted begins, each once, in order |
| WindowerTheorems.FinishedCut | scripts/bench_windowed.py:147-161 | A stream ending with no case open: all its cases are in the finished windows, where only the last may be closed at the end |
| WindowerTheorems.UnclosedDrops | scripts/bench_windowed.py:148-150 | A stream ending inside a case loses that case and those carried into its window, with a finding, and no others |
| WindowerRecord.WindowsHold | scripts/bench_windowed.py:119-161 | With a monotone clock the windows are ordered and disjoint and each case ran inside the window naming it: over all cases, or, where the stream ends inside a case, over those before a point |
| WindowerRecord.OnlyLastUnattributed | scripts/bench_windowed.py:125-134 | With process windows only a last window closed at the end can lack figures |
| WindowerRecord.CleanIff | scripts/bench_windowed.py:105-170 | No findings exactly when the stream is a non-empty alternation of begins and their own ends and every window is attributed |
| WindowerRecord.AlternatingNames | scripts/bench_windowed.py:141-145 | The windows of an alternating stream name its begins, each once, in order |
| Sweep.CellIdsDiffer | scripts/bench_report.py:195 | Cell ids of different cells differ, whatever the variant is called |
| Sweep.Runs.Run | scripts/bench_report.py:194-203 | A run feeds one begin and one end with its own id, whether it returns or raises |
| Sweep.LoadRecord | scripts/bench_report.py:211-237 | Each cell gets the last window naming it, cells without one are findings, and the status is "ok" exactly without findings |
| Sweep.Runs.Record | scripts/bench_report.py:205-237 | After any runs every cell carries the load of the one window naming it, and the status is "ok" exactly when a cell ran and every window is attributed |
| Governor.Group | scripts/bench_governor.py:143-148 | The groups partition the CPUs that have a value, by value, each in ascending order without repeats, keys distinct and groups non-empty |
| GovernorRun.Host.Helper | scripts/host/expanse-governor:31-71 | The helper refuses whole, or writes a prefix of the list and fails, or writes all of it |
| GovernorRun.Host.Apply | scripts/bench_governor.py:107-140 | The policies and the state file after `apply`, cut short in the helper, between the writes or inside either write; a zero exit means all pinned CPUs run performance |
| GovernorRun.Host.Restore | scripts/bench_governor.py:151-217 | An absent, torn or already restored file leaves everything and exits 0; otherwise only recorded CPUs are touched, a zero exit means each matches its record, a working helper with acceptable records means a zero exit, and the final rewrite can tear the file |
| GovernorRun.BothBack | scripts/bench_governor.py:166-193 | Governors first, then preferences, leaves no pinned CPU differing from its record |
| GovernorRun.BackExactly | scripts/bench_governor.py:244-258 | Under the hardware coupling a host that matches the record is the host recorded, knob for knob |
| GovernorTheorems.ZeroExitIff | scripts/bench_governor.py:107-217 | After `apply` and any number of restores, each cut short anywhere, with no earlier run's record left in force, a zero exit means every CPU is as before exactly when the file could be read or there was nothing to undo |
| GovernorTheorems.LeftoverIff | scripts/bench_governor.py:107-217 | Where `apply` refuses and an earlier record is still in force, a zero exit means that record is met, and the host is as found exactly when it already met it |
| GovernorTheorems.LeftoverRecord | scripts/bench_governor.py:151-217 | A host on which every restore by a working helper then exits 0 with the governor changed |
| GovernorTheorems.UntornIsBack | scripts/bench_governor.py:107-217 | While no rewrite was cut short, a zero exit always means every CPU is as before |
| GovernorTheorems.AcceptableIsBack | scripts/bench_governor.py:151-217 | With a readable file, a working helper and records it accepts, an attempt that runs to its end exits 0 with every CPU as before |
| GovernorTheorems.OthersUntouched | scripts/bench_governor.py:107-217 | Over all such runs no CPU outside the pinned set is touched |
| GovernorTheorems.TornRecord | scripts/bench_governor.py:136-156 | A host on which, after `apply` was killed in its second write, every restore exits 0 with the pinned CPU still at performance |
| GovernorTheorems.Bracket | scripts/bench_governor.py:107-217 | The same of the methods themselves: `apply` and two restores on one host |
| WordUpdate.IncrementsIff | include/expanse.h:825-838 | In every run the map follows one-step increments throughout exactly when no store starts from a leftover word |
| WordUpdate.NoLostUpdate | include/expanse.h:806-838 | As long as no compare fails on an absent key with a leftover in `seen`, every store is one increment of the word then present |
| WordUpdate.JunkIsStored | crates/expanse-capi/src/modern_sync.rs:383-388 | And where one does, the very next try stores a word that is not an increment |
| WordUpdate.JunkRun | include/expanse.h:825-838 | From every fresh map that has the key, one remove and one loop reach such a store: the key should hold 1 and holds the leftover's successor |
| WordUpdate.CountsEveryStore | include/expanse.h:806-838 | With only incrementers the word is the first one plus the number of stores modulo 2^64 |
| WordUpdate.OneClaim | include/expanse.h:819-823 | Without a remove an absent key is created once; of callers racing on it alone exactly one is told it stored, and its value stays |
| WordUpdate.FailsNeedChanges | include/expanse.h:808-817 | A thread's tries fail no more often than other steps changed the word |
| MetaUpdate.RoundsAreIncrements | include/expanse.h:1442-1460 | In every run, whatever `seen` held, a round adds one to a field below its maximum or changes nothing, and never creates a key |
| MetaUpdate.MatchEnds | crates/expanse/src/sync.rs:12262-12300 | A round on an unchanged value ends the loop: stored below the maximum, refused at it, on a payload without a field, and on an absent key |
| OrderedWalk.KeyOrders | include/expanse.h:945-959 | Words and byte strings are strictly and totally ordered |
| OrderedWalk.WalkAscends | include/expanse.h:949-959 | Whatever happens to the map between calls, a walk returns keys in strict order, each present when returned |
| OrderedWalk.WalkMissesNone | include/expanse.h:957-959 | A completed walk returns every key present throughout it |
| OrderedWalk.WalkOfUnchanged | include/expanse.h:957-959 | On an unchanged map a walk returns each key once and is no longer than the map |
| OrderedWalk.Iterator.Step | include/expanse.hpp:77-88 | `operator++` goes to the nearest key after the current one, or to the end and stays there |
| OrderedWalk.Traverse | include/expanse.hpp:77-109 | A range-for ends, having visited every key once, in order |
| StringNav.NavRetry | include/expanse.hpp:601-625 | On an unchanged map the loop returns the whole entry whatever its length, in one call or in two exactly when the first buffer was too short |
| BlobPrune.BlobMap.Prune | include/expanse.hpp:1281-1328 | Without a throw exactly the matching live entries go and are counted; with one the map is unchanged and the last exception over the ordered scan is raised |
| RunSummary.PauseProblems | scripts/bench_host_guard.py:1086-1122 | No problems exactly for an acceptable record; the overlaps reported are exactly the overlapping pairs |
| RunSummary.ExcludedIsClear | scripts/bench_host_guard.py:1139-1145 | No measured process ran within the margin of an excluded sample's window |
| RunSummary.Summarize | scripts/bench_host_guard.py:1205-1292 | Exit 0 exactly for a readable, non-empty record whose samples are quiet or excused by an accepted pause record, without a long gap and with at most one governor |
| RunSummary.AcceptedRun | scripts/bench_host_guard.py:1205-1292 | At every instant of an accepted run a sample follows within the longest gap, quiet or with no measured process near it |
| Bca.AccelerationBounded | scripts/bca_bootstrap.py:106-117 | Whatever the jackknife sample, the acceleration is at most a sixth |
| Bca.OrderedIff | scripts/bca_bootstrap.py:123-129 | The two adjusted quantiles are in order exactly when neither denominator is negative, pinned or not |
| BcaInterval.FromDistribution | scripts/bca_bootstrap.py:75-148 | The interval's values and label from the sample; no interval exactly where the source raises |
| BcaInterval.EndpointsOrdered | scripts/bca_bootstrap.py:119-148 | For every sample and every confidence the source accepts: from 0 up the endpoints are in order when neither denominator is negative and reversed when one is; below 0 they have changed places |
| BcaReversed.ReversedSample | scripts/bca_bootstrap.py:119-148 | A sample of two replicates and 25 jackknife values whose lower endpoint comes out above its upper one at confidence 0.95 |
| BcaInterval.NearbyOrdered | scripts/bca_bootstrap.py:119-148 | From confidence 0 up they are in order, and below it reversed, whenever both quantiles stay within 6 of the bias |
| BcaInterval.EndpointsInBoot | scripts/bca_bootstrap.py:137-148 | Both endpoints are bootstrap values; the degenerate label means exactly a one-point distribution and a one-point interval |
| OverheadGate.Validate | scripts/allocator_overhead_bench.py:214-263 | No reasons exactly when every shape of every run was measured with usable figures |
| OverheadGate.EvaluateGate | scripts/allocator_overhead_bench.py:189-400 | PASS exactly when the runs pair up and in every pair every shape was measured, grew by at most one percent, and the freed memory came back |
| CpuList.Expand | scripts/bench_provenance.py:417-434 | The CPUs of the list in ascending order, each once, or the error |
| CpuList.RoundTrip | scripts/bench_governor.py:67-68 | Reading a printed ascending list gives the same list |

## Left out

- Sync32.Publish: that the engine leaves a tree holding the operation's target when the bracket closes is taken as given; node byte layouts, splits and rank arithmetic of the 32-bit engine are not part of this model.
- Sync32Theorems.ReadsLinearize: covers point lookups and the length; the surface's ordered seeks, and containers of words other than 32 bits, are not modelled.
- HostGuard.Attribute: the per-kind breakdown of kernel threads and of the classes on the pinned CPUs, the unattributed residual and the rounding to core-equivalents are not modelled; ticks are integers.
- HostGuardWindow.Assess: the list of offenders, the residual readings and the scaling to core-equivalents are not modelled, and a sample is one instant: the passes that re-read a process table while it changes are left out.
- HostGuardTheorems.ForeignExact: speaks of windows in which no process of the run is orphaned or reaped outside its tree; `ForeignReadIff` says what is read in the others.
- BenchLockRuns.RecoversFromCrash: removing the directory tree is one step, the text of an owner record is written whole or not at all once its file is open, and a command that outlives its killed wrapper is not modelled.
- Windower.Recorder.Feed: parsing boundary lines, and the joined display name of a merged window, are left to the caller and to `Sweep.Join`.
- WindowerRecord.OnlyLastUnattributed: figures are exact reals rounded halves up; the source's binary rounding is not modelled.
- GovernorRun.Host.Restore: throttle counters, messages and the copies written to the JSON output are not modelled, nobody else writes a policy during the run, and a knob that was recorded is still there. A rewrite cut short leaves a file that does not parse. The helper's CPU list is a list of numbers, in the pin's ascending order.
- WordUpdate.NoLostUpdate: a library call is one step; how the 64-bit map makes it one is not part of this model.
- OrderedWalk.Traverse: the library's answer is its header's contract; keys narrower than 64 bits are not modelled.
- StringNav.NavRetry: the map is unchanged during the loop, as for the single-threaded maps the wrapper uses it on.
- BlobPrune.BlobMap.Prune: the predicate is a function of key and metadata; running out of memory while collecting keys is not modelled.
- RunSummary.Summarize: a sample without a time of its own, on which the report's text cannot be printed, and infinite or missing figures are not modelled.
- BcaInterval.FromDistribution: exact real arithmetic, with the normal distribution and the square root as functions of which only monotonicity and a few bounds are used; drawing resamples is not modelled.
- CpuList.Expand: numerals are plain digits with blanks around them; the other spellings Python's `int` takes are refused here.
- OverheadGate.EvaluateGate: the per-shape summaries and means, which are informational, and the wording of the reasons are not modelled; ratios are exact reals.
- The benchmark regression printers, argument parsing, JSON, Markdown and workflow output would add only single-branch members.
- The 64-bit engine (trie nodes, leaf kernels, lock coupling, epochs) and the language bindings are not modelled.
