# per-node CSI driver: a verified model of the node plugin

The node plugin gives a pod this node's copy of a volume by bind-mounting the copy's
directory onto the target path the kubelet names. It keeps three stores in step with no
transaction across them: the hold map in memory, the hold files on the disk, and the
kernel's mount table. Any system call may fail and the process may die between any two of
them. This project models that and proves what the three stores keep, over every run.

`dafny verify dfyconfig.toml` checks everything.

## How it is laid out

| file | what it holds |
|---|---|
| `Handles`, `Paths` | the handle pattern as a denotational regular expression, `filepath.Join` and `Clean`, and why copies may be a map keyed by handle |
| `Cleaning` | the documented rules of `Clean`, and the driver's paths written out |
| `Mountinfo` | the reader of the mount table, against the kernel's printing of it |
| `CopySize` | the walk behind the volume's statistics, in `int64` |
| `States` | memory, disk and kernel, and the system calls on them with their errors |
| `Calls` | the two handlers as programs of atomic steps: one system call, or one section under the lock |
| `Handlers` | what the handlers answer and leave for every outcome of every system call, stated with no step program |
| `Restart`, `Convergence` | recovery, and crash and retry |
| `Nodes` | the driver's object, whose methods are proved equal to the step programs |
| `Interleavings` | steps of calls on different volumes commute |
| `Systems`, `Histories` | the whole plugin: calls in flight, sweep passes, crashes, recoveries, pods that write, volumes that come and go; and every history of overlapping calls in it is a serial one |
| `Safety`, `Records`, `Exclusion`, `SweepSafety`, `LiveCopies`, `Generations`, `Endurance`, `Runs` | invariants and results over all runs of that system |
| `Sweeps`, `Watch` | the removal pass, and the loop that deletions and the ticker wake |
| `OnePod`, `ReadOnly`, `Exceptions` | where the promises stop, with exact conditions |

The handlers are methods of `Nodes.Node`, an object that mutates its hold map and a machine's
disk and kernel, as the source does. Each is proved to leave the world and answer as the
step program of `Calls` does with nothing in between; the other modules reason about the
step program, since there the process may die and other calls may run at every step.

The kernel's behaviour is stated in `States`: a bind stacks on what is there and needs both
directories; unmounting a directory with nothing mounted is EINVAL and a missing one ENOENT;
removing a mount point is EBUSY and a directory with files in it ENOTEMPTY. A bind remembers
which directory it was made from, so a copy that was removed and made again is told apart
from the old one a mount may still show.

## What is assumed of the environment

Each hypothesis is a predicate with a name, and the theorems say which they need.

- `Systems.Enabled`, `Systems.Conforms`: at most one call in flight per volume (the
  "Concurrency" section of the CSI specification), and a target path belongs to one pod and
  volume. A directory listing names each entry once.
- `Exclusion.OneTargetOf`: the volume's pods have one target path each. Only the results about
  one pod per volume ask it.
- `Records.Written`: hold files get written.
- `Records.Tidying`: files of dropped holds can be removed, and a restart can list the holds
  directory. A run with `Written` and `Tidying` is orderly.
- `Exclusion.Lucky`: `Written`, and at a restart the holds directory, the hold files and the
  mount table can be read. Mounts, unmounts and everything else may still fail.
- `SweepSafety.Polite`: no publish of a volume that a pass does not name is in flight during
  that pass. An orderly run that is polite is called kind.
- `Watch.Enabled`: client-go takes a deletion into its store before it calls the handler.
- What a hold file was written with is what it reads back, or it does not decode.

Lemmas show what happens without most of these: without each part of `Lucky`
(`OnePod.LostRecordLetsASecondPodIn`, `OnePod.UnlistableHoldsLetASecondPodIn`,
`OnePod.UnreadableRestartLetsASecondPodIn`), without `OneTargetOf` (`OnePod.ExclusionExactly`,
which is exact), without `Polite` (`SweepSafety.AtRiskExactly`, which is exact too), with a stale
record that was not removed (`ReadOnly.WritableAfterCrashExactly`, exact), and with a handler
that runs before its deletion is in the store (`Watch.EarlyWakeLosesDeletion`). Nothing is shown
about two calls in flight on one volume or a target that belongs to two volumes.

## Where the code and its documentation disagree

The model follows the code.

- `mount.go:42-45` says a target never stays writable by accident. It does if the remount
  fails and the compensating unmount fails too, whose error `mount.go:52` drops
  (`ReadOnly.WritableByAccidentExactly`). An acknowledged retry after a crash hands such a
  target to a pod exactly when an older hold file names the very claim asked for
  (`ReadOnly.WritableAfterCrashExactly`).
- `plans/00-design.md` says the driver enforces one pod per node per volume, and `holds.go:3-4`
  that the rule survives a restart. Given `Lucky`, it does for exactly those assignments of
  targets in which no volume has both a pod with two targets and a second pod
  (`OnePod.ExclusionExactly`); after a restart, exactly when the record comes back
  (`OnePod.RefusedAfterRestartExactly`).
- `plans/00-design.md` says a copy is removed only while no pod holds it. A pass looks at the
  holds once, and takes a held copy exactly where a publish takes its hold after the pass has
  looked, of a volume the pass does not name (`SweepSafety.AtRiskExactly` and
  `SweepSafety.HeldCopyTakenExactly`; `Exceptions.ImpoliteSweepTakesHeldCopy` is such a run).
- `sweep.go:3-4` says a copy is removed when its PersistentVolume is deleted and for no other
  reason. The code removes exactly the copies that are neither named nor held
  (`Sweeps.SweepIsExact`), so also one whose handle no PersistentVolume ever named
  (`Exceptions.UnnamedCopyIsTaken`).
- `handle.go:14-15` and its error text count the limit in characters; the code counts bytes.
  The accepted handles are the same, because every one of them is ASCII.

## Model

| member | source | states |
|---|---|---|
| Handles.CheckHandle | handle.go:26-39 | Accepts exactly the DNS-1123 subdomain names of at most 253 characters; the three refusals are exact, in the order of the switch, and over-long is counted in bytes. |
| Handles.ShapeIsDns | handle.go:17-21 | The language of the pattern is the grammar: non-empty dot-separated labels of lower-case letters, digits and `-` that start and end with a letter or digit. Both directions, for every string. |
| Handles.AcceptedIsElement | handle.go:3-5 | An accepted handle is one path element: not empty, no `/`, neither `.` nor `..`. |
| Handles.DnsIsAscii | handle.go:14-21 | Every name in the grammar has one byte per character, so the byte limit is a character limit. |
| Handles.AcceptedIsLiteral | handle.go:17-38 | Character by character, with no splitting and no pattern: accepted exactly are 1 to 253 of `a` to `z`, `0` to `9`, `-` and `.`, with neither `-` nor `.` at an end and neither beside a `.`. |
| Paths.OneElementBelow | store.go:35-44 | After Join and Clean, whatever the root is, a copy is one element below the directory the sweep lists and a hold one element below the directory recovery lists. |
| Paths.AcceptedHandlesAreApart | store.go:35-44 | Distinct accepted handles have distinct copies, neither inside the other, and no copy tree meets a hold file. |
| Paths.RemovalByPrefix | store.go:71-75 | A recursive delete takes exactly the path and what continues it after a slash. |
| Paths.RemovalIsContained | store.go:71-75 | A recursive delete of one copy takes everything at or below it and leaves every path of every other copy and every hold file as it was. |
| Cleaning.CleanIsIdentityOnClean | store.go:35-44 | `filepath.Clean` leaves a clean path as it is: plain names between single slashes, with leading `..` only in a relative one. |
| Cleaning.CleanIsClean | store.go:35-44 | And whatever it is given, it returns such a path, rooted exactly if the input was. |
| Cleaning.DoubledSlash | store.go:35-44 | Doubled slashes anywhere count as one. |
| Cleaning.DotElement | store.go:35-44 | A `.` anywhere goes. |
| Cleaning.DotDotElement | store.go:35-44 | A `..` anywhere takes the name before it with it. |
| Cleaning.DotDotAtRoot | store.go:35-44 | At the root a `..` goes. |
| Cleaning.TrailingSlash | store.go:35-44 | A slash at the end goes. |
| Cleaning.AtTheStart | store.go:35-44 | At the start of a relative path a `.` goes, and a name together with the `..` behind it. |
| Cleaning.PathsBelowCleanRoot | store.go:35-44 | For every clean root, absolute or relative, the copy is `<root>/copies/<handle>` and the hold file `<root>/holds/<handle>`, to the letter. |
| Cleaning.PathsBelowBareRoot | store.go:35-44 | The same for `/`, for `.` and for no root at all. |
| Cleaning.RootMayBeCleaned | store.go:35-44 | Any other root gives the paths that its cleaning gives. |
| Mountinfo.MountedIn | holds.go:155-167 | Answers true exactly when the fifth field of some line before the first that overflows the scanner unescapes to the path. |
| Mountinfo.UnescapeEscape | holds.go:155-169 | The replacer undoes the kernel's octal escaping on every string, backslashes that look like escapes included. |
| Mountinfo.ReadsWhatTheKernelPrints | holds.go:155-169 | On every printed table of mount points and roots with no whitespace but space, tab and newline, the reader finds a path exactly when it is the mount point of an entry before the first whose line overflows the scanner. |
| Mountinfo.FindsWhatIsMounted | holds.go:155-167 | So it is right about every path, unless a line overflows before it meets the path, and then it answers false. |
| Mountinfo.SpacesByValue | holds.go:161 | The whitespace that ends a field is Unicode's, listed by code point. |
| Mountinfo.EscapesAreOctal | holds.go:155-157 | The escapes are a backslash and the character's three octal digits, for space, tab, newline and backslash and no other, and each is read back. |
| Mountinfo.ReadsOrdinaryTables | holds.go:158-167 | Every table of visible ASCII characters 0x21 to 0x7e, with spaces, tabs and newlines in its paths and lines under 65536 bytes, is read exactly, also when the last line is not ended. |
| Mountinfo.LongLineHidesTheRest | holds.go:159-166 | A line of 65536 bytes or more hides itself and all mount points behind it, and none before. |
| CopySize.Walk | store.go:81-90 | The accumulating callback stops at the first fault of the walk order with that error and has added exactly the bytes before it, one `int64` addition at a time. |
| CopySize.WalkAll | store.go:81-90 | The same over a directory's entries in name order. |
| CopySize.AddedIsWrapped | store.go:80-89 | Additions that each wrap at 64 bits come to the true sum wrapped once. |
| CopySize.CopySize | store.go:77-91 | An error exactly when something in the tree cannot be read, and it is the first one; otherwise the sum of all regular files at any depth, exact when it fits an int64. |
| CopySize.OrderMeetsTheTree | store.go:79-91 | The visits of a walk are fault-free exactly when the whole tree is readable, and then count the tree's recursively defined size. |
| CopySize.FirstUnsoundStops | store.go:81-84 | Of several unreadable entries the walk stops on the first in name order, with its error. |
| CopySize.SizeIsAdditive | store.go:77-91 | The size of two groups of entries together is the sum of their sizes. |
| CopySize.NodeGetVolumeStats | node.go:212-245 | Each status code exactly when the call earns it, in the order of the checks, for the tree at the handle's own copy path, and that copy's bytes and the filesystem's numbers in the answer. |
| Nodes.Node.constructor | server.go:70-73 | A process that starts remembers no hold. |
| Nodes.Node.Holder | holds.go:26-33 | The standing claim on the handle, or none. |
| Nodes.Node.KeepHold | holds.go:35-56 | Memory first, then the file; the whole new state for each way the write can fail, a truncated file among them, and success whatever happened. |
| Nodes.Node.DropHold | holds.go:58-70 | The claim leaves memory whether or not its file goes; the kernel is untouched. |
| Nodes.Node.HeldHandles | holds.go:72-82 | The set of held handles, exactly. |
| Nodes.Node.BindReadWrite | mount.go:33-40 | On success one writable bind of the live copy is on top of what was there; on failure nothing changed. |
| Nodes.Node.BindReadOnly | mount.go:42-56 | On success one read-only bind is on top; on failure the target's mounts are as before unless the compensating unmount failed. |
| Nodes.Node.BindCopy | mount.go:58-65 | On success one bind of the live copy in the mode the request asks for is on top; on failure the mounts are as before unless a compensating unmount failed. |
| Nodes.Node.Unbind | mount.go:67-75 | Reports an error only for errors other than EINVAL and ENOENT, and takes off one mount at most. |
| Nodes.Node.Mount | node.go:151-171 | Copy, mode, target, unbind, bind, stopping at the first failure with what was done so far left in place. |
| Nodes.Node.NodePublishVolume | node.go:101-149 | For all outcomes of its system calls: the exact reply, the exact hold map after it, and the whole new state that of the step program run alone. |
| Nodes.Node.NodeUnpublishVolume | node.go:173-210 | The same for unpublish: the exact reply; on success no mount, no target and no hold that names it; otherwise every hold and file as it was. |
| Handlers.PublishAnswersExactly | node.go:106-148 | InvalidArgument, FailedPrecondition, Success and Internal, each exactly when: for the arguments, for another pod's hold, for the pod's own hold at this target or a mount that goes through, and otherwise; the first two and the standing hold change nothing. |
| Handlers.PublishLeavesExactly | node.go:135-171 | For every combination of failures, the holds, the hold files, the copies, the targets and the binds that are left, written out. |
| Handlers.UnpublishAnswersExactly | node.go:175-210 | Success exactly when the unmount and the removal go through and at most the one mount and an empty directory were there; a failure answers Internal and leaves every hold, file and copy. |
| Handlers.UnpublishLeavesExactly | node.go:187-209 | For every combination of failures, the holds, the hold files, the target and the binds that are left, written out. |
| Nodes.Node.ReleaseEndsCall | node.go:198-209 | From the hold check on, an unpublish whose target the hold names, or that finds no hold, drops claim and file and answers success. |
| Nodes.Node.MountedNow | holds.go:144-153 | Reading the text of the mount table tells whether the target is a mount; a table that cannot be opened, or that overflows the scanner first, shows nothing. |
| Nodes.Node.Resume | holds.go:94-126 | The recovery loop, reading the text of a mount table opened anew for each hold, leaves the state of the recovery function, about which the next rows speak. |
| Restart.ResumeIsExact | holds.go:98-126 | A listed handle is held afterwards exactly when its record was read and its target is mounted, under the recorded claim; its file stays exactly when held or not removable; nothing off the list, no mount and no copy changes. |
| Restart.ResumeRestarts | holds.go:98-126 | With everything readable, in any order of entries, exactly the decodable holds with mounted targets and exactly their files remain. |
| Restart.RestartFromAgreement | holds.go:94-97 | When memory and disk agree and every hold is mounted, a crash and a recovery restore the same state. |
| Restart.RecoveryAgreesExactly | holds.go:98-126 | Whatever it could read, a recovery ends in such agreement if and only if it took back the hold of every file, or could remove the file. |
| Restart.RestartReachesAgreement | holds.go:94-126 | From any state a recovery in which everything can be read and removed reaches such agreement, so a second one changes nothing. |
| Restart.CrashKeepsHoldsExactly | holds.go:94-126 | A crash keeps memory's holds if and only if the disk has the same record for each and no other recoverable one. |
| Restart.InterruptedRestart | holds.go:98-126 | A recovery that dies partway or cannot remove files is made good by the next, if it could read the records and the table. |
| Calls.StepIsLocal | node.go:106-210 | A step's outcome and effect depend only on what is kept under its own handle and target. |
| Calls.StepFrame | node.go:106-210 | A step changes nothing kept under any other handle or any other target. |
| Convergence.GoodPublish | node.go:135-148 | A publish that has to mount and meets no failure ends with the copy (the old contents kept), the target, exactly one bind in the mode asked for, the hold, and its record. |
| Convergence.PublishPartway | node.go:135-171 | Wherever a publish stops, whatever failed: the copy's contents are kept, at most one bind is on the target, and claim and record have changed only as far as the step it reached. |
| Convergence.PublishConverges | node.go:106-171 | Crash and retry: whatever failed and wherever the process died, recovery and the same request end in the very state and reply of an undisturbed request. |
| Convergence.AcknowledgedIsMounted | node.go:122-148 | After an acknowledged publish the pod holds the handle at the target, and the target shows the live copy in the mode asked for if and only if the call mounted it or the standing claim's target already showed it so. |
| Convergence.RefusedChangesNoClaim | node.go:113-140 | A publish that is not acknowledged leaves every claim and every record as it was. |
| Convergence.GoodUnpublish | node.go:187-209 | With no failure an unpublish succeeds exactly when the target carries at most one bind and is empty underneath; then the target is gone, and so are a claim and record that named it. |
| Convergence.UnpublishDestroysNothing | node.go:190-197 | Whatever fails and even with mounts stacked, an unpublish changes no copy, and a target with files in it stays with its files. |
| Convergence.UnpublishConverges | node.go:175-210 | Crash, any recovery whatever it could list, read or remove, any calls at other targets, then the retry: it succeeds, the target is unmounted and gone, nothing else is touched, and a hold taken elsewhere in between stands in memory and on the disk. |
| Interleavings.StepsCommute | node.go:106-210 | Two steps of calls on different handles and targets commute, in state and in where each call goes next. |
| Interleavings.PullOut | node.go:106-210 | Any one call can be pulled out of an interleaving and run first, all at once, with the same result. |
| Interleavings.FinishedIsPerformed | node.go:106-210 | A call stepped to its end does what the handler does in one go. |
| Interleavings.InterleavingsAreSerial | node.go:106-210 | Every interleaving of one batch of calls on distinct handles and targets has the final state and the replies of those calls made one after another, in whatever order they are listed. |
| Histories.HistoriesAreSerial | node.go:106-210 | Every run of calls that begin, step and return as they like, any number per volume with one in flight each, ends in the state and gives the replies of the same calls made one after another in the order of their answers. |
| Histories.AnswersAreReturns | node.go:106-210 | The answers compared there are the replies at which the run's calls return, in that order. |
| Histories.AnswerAt | node.go:106-210 | And on the other side the reply of each call made after those before it. |
| Histories.WholeCallIsARun | node.go:106-210 | A call from beginning to answer with nothing in between is a run of the system that does what the handler does. |
| Safety.EventKeeps | node.go:135-206 | Each step of each call, each crash, recovery step, sweep step and pod write keeps the invariant of holds, records, mounts and calls in flight. |
| Safety.HoldsAreMountedAndBindsNeverStack | node.go:135-206 | Over every run with any failures: no target ever carries two binds, a bind is of its owner's volume, and a hold's target carries exactly one bind of that volume if and only if no unpublish is past detaching it or stopped there. |
| Exclusion.OnePodPerVolume | node.go:122-146 | For every volume whose pods have one target each, over every lucky run, crashes anywhere: at most one pod has an acknowledged publish of it whose bind is still there, and the hold names that pod and target. |
| Exclusion.AcknowledgedUntilUnpublished | node.go:198-206 | An acknowledged publish keeps its bind and its hold through every lucky run in which nobody unpublishes its target. |
| Records.EventRecords | holds.go:35-56 | Every event of a run in which hold files get written keeps every hold on file, but for one being written down. |
| Records.EventLeavesNoStray | holds.go:58-70 | Every event of a run in which hold files get removed leaves no file without a hold, but for one about to go. |
| SweepSafety.AtRiskExactly | sweep.go:178-192 | Over every run, whatever fails and with no rely condition: a held volume's copy comes to be before a pass that may take it, if and only if some publish takes its hold after that pass looked at the holds and past the volume. |
| SweepSafety.HeldCopyTakenExactly | sweep.go:182-192 | Of all events the one that takes a held volume's copy is a successful removal by a pass the copy was at risk of. |
| SweepSafety.SweepSparesHeld | sweep.go:178-192 | At every moment of every polite run, whatever fails, no copy the pass may still take is held or being published. |
| LiveCopies.HoldsShowTheLiveCopy | sweep.go:178-192 | Over every kind run a held volume's mounted target shows the directory that is in the store now, never one the sweep removed and a publish made again. |
| Generations.OldBindNeverShowsNewCopy | store.go:71-75 | Over every run, a bind left from a copy that was removed never shows a later copy of the name, and what is written there reaches none. |
| Endurance.HoldStands | node.go:122-133 | A hold stands to the letter through every run in which the process lives and no call unpublishes its target or moves it for the same pod. |
| Endurance.HoldThroughRestart | holds.go:99-121 | After a crash and any recovery the hold is there if and only if the holds directory was listed, its record was read and names it, the mount table was read, and its target is mounted; its file stays exactly when it was not listed, is held, or could not be removed. |
| Endurance.RecoveriesResume | holds.go:98-126 | Recovery steps one by one are the recovery loop. |
| Endurance.DataSurvives | node.go:173-174 | As long as its volume exists, a copy keeps its directory and files through every run in which its own pods write only where their bind is read-only. |
| Runs.NextPodReadsWhatWasWritten | node.go:151-174 | A pod writes through a writable bind; after any run in which the volume exists and its own pods write no more, a publish acknowledged from no standing claim shows a copy holding exactly that. |
| Runs.HoldersReadWhatWasWritten | node.go:151-174 | Inside kind runs, where calls overlap: from the write on, whoever holds the volume at a mounted target is shown exactly what was written. |
| Runs.QuietStatesAgree | holds.go:35-70 | At every quiet moment of every orderly run memory and disk agree, every hold is mounted, every target is in order, and no two volumes' holds share a target. |
| Runs.CrashedCallIsARun | server.go:70-75 | A call, a crash after any step and a recovery are a run of the system, each event enabled, and leave what the crash results speak of. |
| Runs.RetriedPublishConverges | node.go:106-171 | Crash and retry inside runs: at any quiet moment of any orderly run, an interrupted publish and a recovery continue the run, and a retry ends where the publish alone would have. |
| Sweeps.HandlesOf | sweep.go:159-176 | Exactly the handles that PersistentVolumes of this driver name, whatever else the cache holds. |
| Sweeps.SweepIsExact | sweep.go:178-192 | A pass keeps every named or held copy as it was and removes of the others exactly those whose removal succeeds; no record changes. |
| Sweeps.OrphansGo | sweep.go:87-106 | A copy neither named nor held, and not published again, is there after a series of passes if and only if it was there before and every pass could not list the copies or failed to remove it. |
| Sweeps.Sweeping.Sweep | sweep.go:180-193 | The loop, on the disk it shares with the handlers, does what those rows say, with the holds looked at once. |
| Watch.NoLostDeletion | sweep.go:66-106 | In every interleaving, each deletion whose handler has run is covered by the full slot, a turn that has yet to list, or a list taken after it; the slot never holds more than one wake. |
| Watch.QuietMeansListed | sweep.go:96-106 | Once all handlers have run and nothing is queued, the last list names no volume that is gone. |
| Watch.WakeIsEnough | sweep.go:97-106 | From every reachable state the loop's own next events are enabled and end in a list that covers every deletion whose handler has run. |
| Watch.BurstCostsOnePass | sweep.go:137-145 | However many deletions came before, they cost at most one further woken pass. |
| Watch.EarlyWakeLosesDeletion | sweep.go:66-72 | Were the handler to run before the store took the deletion in, the loop could come to rest with its last list naming a volume that is gone. |
| Watch.FirstPassSweeps | sweep.go:96 | The first pass waits for no deletion and no tick, and keeps exactly the copies that a volume names, a pod holds, or whose removal fails. |
| Watch.TickSweeps | sweep.go:103-104 | From the select a tick starts a pass, which keeps exactly the copies that a volume names, a pod holds, or whose removal fails. |
| Watch.TickerCollectsOrphans | sweep.go:87-106 | With no deletion to wake the loop, and calls served in between, a copy that no volume names is there after any number of ticks if and only if every tick's pass could not list it, met a hold, or failed to remove it. |
| Watch.CopyDiesWithItsVolume | sweep.go:94-107 | Over every run of the loop from its start, whatever came before its last list: once no volume names a handle, all handlers have run and the loop rests, and nobody published the handle since that list, its copy is there if and only if it was there then and the copies could not be listed, a pod held it, or its removal failed. |
| Watch.Follower.Wake | sweep.go:140-145 | A full slot stays full, an empty one fills, and the send never blocks. |
| Watch.Follower.ListAndSweep | sweep.go:101-104 | A turn's pass keeps what its own fresh list names and what is held at that moment, and does no more than one removal pass. |
| Watch.Follower.Follow | sweep.go:94-107 | The loop, under any schedule and with calls served between its steps, ends in the state of the protocol above and in the world its passes and the calls leave. |
| OnePod.LostRecordLetsASecondPodIn | holds.go:49-55 | For all pods, targets and states that fit: a hold file that is not written, then a perfect restart, and two pods share the copy, both acknowledged. |
| OnePod.UnreadableRestartLetsASecondPodIn | holds.go:103-117 | The same when the hold file or the mount table cannot be read at the restart. |
| OnePod.UnlistableHoldsLetASecondPodIn | holds.go:99-102 | The same when the holds directory cannot be listed. |
| OnePod.RefusedAfterRestartExactly | holds.go:98-126 | After any recovery, a failed listing included, another pod's publish is refused if and only if the directory was listed, its volume's record was read, belongs to a different pod, and its target is found mounted. |
| OnePod.RefusedAfterUnpublishExactly | node.go:198-206 | After an unpublish that succeeds, a publish is refused if and only if a different pod holds the volume at another target. |
| OnePod.TwoTargetsLetASecondPodIn | node.go:131-146 | The way it fails: one pod at two targets, the hold moves, the unpublish of the second drops it, and another pod gets in while the first bind is still there. |
| OnePod.ExclusionExactly | node.go:122-146 | In all lucky runs no two pods both have an acknowledged publish of one volume with a live bind, if and only if no volume has both a pod with two targets and a second pod. |
| ReadOnly.WritableByAccidentExactly | mount.go:42-56 | A target asked for read-only is writable after the call if and only if remount and compensating unmount both fail, or the call stopped before an old writable mount came away; the call then answers an error. |
| ReadOnly.WritableAfterCrashExactly | mount.go:42-56 | Killed at any step with any outcomes, restarted and retried: the retry is acknowledged with a writable target if and only if an older record names the very claim asked for, and the crash fell between bind and a remount or unmount that worked, or before an old writable mount came away. |
| ReadOnly.StaleRecordLeavesTargetWritable | mount.go:42-56 | The witness: a stale hold file and a crash right after the bind. |
| Exceptions.HalfUnpublishedIsAcknowledgedUnmounted | node.go:187-197 | An unpublish that detaches and cannot remove the target leaves the hold, and the same publish is then acknowledged with nothing mounted. |
| Exceptions.RecursiveDeleteDestroysExactly | node.go:190-197 | A recursive delete at that place would destroy data exactly when a writable bind of files was stacked under the detached one; what the code does instead stops there with an error and every copy whole. |
| Exceptions.NothingEverUnderneath | node.go:151-170 | In no run from a fresh machine does such a target arise. |
| Exceptions.UnnamedCopyIsTaken | sweep.go:180-192 | From any quiet moment a run without any deletion takes the copy of a handle that is neither named nor held. |
| Exceptions.ImpoliteSweepTakesHeldCopy | sweep.go:180-186 | Without the rely condition, on every fresh machine and for every publish of an unnamed volume, there is a run in which the sweep takes the copy of a held volume. |

## Left out

- The gRPC server, its sockets, interceptors and shutdown, the command line and the Identity service: plumbing with no deep state.
- Events, logging, metrics and the volumes gauge: they never change a result, and the gauge is read and set in two critical sections.
- client-go's list, watch and reconnect: an environment that changes a store and then calls the delete handler. A volume whose handle changes under one name, and shutdown by a cancelled context, are not events of `Watch`; there a call is served whole between two steps of the loop, and `LiveCopies` has the calls and the pass step by step.
- The JSON encoding of a hold: a hold file is a claim or bytes that do not decode.
- File modes, the umask, statfs arithmetic and user permissions: each is an outcome that works or fails.
- Mounts that other programs make at the driver's targets, and pods that write underneath an unmounted target. `UnpublishDestroysNothing` holds with both.
- The mount table's "deleted" suffixes, and path bytes that are not UTF-8.
- Unpublish calls for handles the driver would not accept: `NodeUnpublishVolume` does not check them, and the copies and hold files of `States` are keyed by handle, which `Paths` justifies only for single path elements.
- Two calls in flight on one volume: the check and the hold of a publish are separate steps, so nothing is claimed about overlapping publishes of one handle.
- Retrying a publish at the same target with a different read-only flag: the code answers from the standing claim. `AcknowledgedIsMounted` says exactly what such a call may find; `PublishConverges` is about identical requests.
- A recursive delete is one step: a failed one leaves any part of the copy's files, but no call runs halfway through it.
- Time: the ticker may fire whenever the loop waits, and no result says how long a pass takes.
