# Purdex: verified models of its stateful cores

The `.dfy` files model the parts of Purdex whose correctness depends on order, interleaving or
inverse pairs of functions: the life of one `pdx serve` image, the locks it carries through an
in-place re-exec, its log rotation, the wwd start history, the desktop app's local-daemon
installer, and a few small languages (SSE frames, the wake-prompt path, the gate shim, `lsof -F0`).
Check everything with `dafny verify dfyconfig.toml`.

Two forms are used. Code that interleaves (goroutines, processes, promises, histories of runs) is
a state machine `Apply(state, event)`; a run is any list of events each of which was enabled, so a
lemma about every list is a lemma about every interleaving and every answer of the outside. Code
that is one sequence of updates is a method with its loops, on a class with the source's fields,
proved against a specification whose own properties are lemmas.

| file | what it models |
|---|---|
| `ServeLifecycle.dfy` | serveAndWait, its signal watcher, the restart request, the last gate before exec |
| `LockHandoff.dfy`, `LockLeak.dfy`, `Reexec.dfy` | flock, descriptors, close-on-exec, fork and exec; pid lock and run lock across re-execs; what a skipped gate leaves open; the loops of reexec |
| `ConfigGate.dfy` | daemon start and `pdx token generate` around the config lock and the run lock |
| `LogRotation.dfy`, `LogArchive.dfy`, `LogFiles.dfy` | the rotating writer, the multi-descriptor switch, the compression and generation shift with crashes, and all of them together |
| `StreamCheck.dfy` | the incremental SSE frame loop of the updater |
| `WakePath.dfy`, `WakeDocument.dfy` | the wake path parser, what a raw text means for a leaf of each kind, and the typed in-place update of a JSON document |
| `GateShim.dfy` | the gate shim's generator, quoting and recogniser |
| `CleanExit.dfy` | clean-exit mark files, and whole histories of wwd starts |
| `Badge.dfy`, `BadgeCenter.dfy` | the Dock badge count, its owner, and the per-window document ids |
| `BrowserViews.dfy` | live views, snapshots and idle timers of the desktop app |
| `RefTasks.dfy` | the content-hashed manifest cache and its tasks |
| `Lsof.dfy`, `LaunchPath.dfy`, `LocalDaemon.dfy`, `OperationQueue.dfy` | the local daemon installer: lsof parsing, ownership, the PATH cache, install/start/restart, the promise queue |
| `Text.dfy`, `Outcomes.dfy` | strings, decimal integers, option and result types |

## What the proofs found

- The clean-exit verdict can be wrong both ways. "Unclean" is wrong if and only if some mark
  answered, every such mark had been removed by starts that ended unrecorded since the last record
  or was not listed, and the glob named nothing stray; "clean" is wrong if and only if no mark
  answered and the glob named a stray one (`StartHistory.VerdictIsExact`). The data directory is
  part of the glob pattern, so with a directory such as `/srv/wwd[1]` marks go unlisted
  (`StartHistory.UnlistedMarkBlamesAPlannedStop`) and another directory's marks can count
  (`StartHistory.StrayMarkExcusesACrash`). In a directory whose path holds no metacharacter "clean"
  is never wrong (`StartHistory.PlainVerdictIsExact`).
- With PDX_BIN unset the shim calls the pdx it was written for if and only if that path holds no
  `}`, or nothing but `}` after its first one: a `}` ends `${PDX_BIN:-...}`, and what follows up to
  the closing quote is appended (`GateShim.ShellReadsPathBack`; `/a}b` becomes `/ab}`). A PDX_BIN
  that is set survives untouched if and only if the path holds no `}`
  (`GateShim.ShellKeepsOverride`). The program's own recogniser reads every path back.
- The badge equals the declared union exactly when every fallback of an unresolved card is the last
  one reported for some unresolved card; when two windows disagree about a card's fallback the
  number can depend on the order of the reports (`BadgeUnion.DisagreementCountsByOrder`).
- A daemon past its pid lock has an old token if and only if it has no run lock, and the last token
  write fell after its read, by a generator that looked at the pid lock before the daemon took it or
  could not open the pid file, which counts as "not running" (`ConfigGate.StaleIff`). The write
  itself may even come after the daemon took its pid lock (`ConfigGate.WriteUnderAServingDaemon`,
  `ConfigGate.BlindLookPasses`).
- A restart whose new image cannot enter the config gate leaves the handed-over run-lock descriptor
  open and inheritable, and a child can hold the run lock past its own exec
  (`LockLeak.ChildCanKeepTheRunLock`). These are the only inheritable lock descriptors past the gate
  (`LockLeak.InheritableIffLeaked`).
- The wake path accepts more than it prints: a sign, leading zeros, and one `[` left over after the
  last index; nothing else (`WakePath.PathAcceptedIff`, `WakePath.PathPrintedIff`).
- A rename of the generation shift replaces a file if and only if the oldest generation is there, could
  not be removed, and the one below it is there and renamed over it (`LogArchive.Archive.ShiftUp`).

## Model

| member | source | states |
|---|---|---|
| ServeLifecycle.ReexecExactlyWhenWanted | cmd/pdx/reexec.go:140-149 | over every interleaving, a run that got to the end re-execs exactly when a restart was accepted and no signal reached the process while delivery was on |
| ServeLifecycle.SequenceRanOnceInOrder | cmd/pdx/shutdown.go:146-262 | when serveAndWait returned: StopModules, Shutdown, Close exactly after a failed Shutdown, Serve's return, CloseModules ran once each in that order, the watcher is gone, and the warnings are one per failed call in order |
| ServeLifecycle.NoCloseWhileServing | cmd/pdx/shutdown.go:191-262 | CloseModules is the last call of any run that makes it, after Serve returned |
| ServeLifecycle.ForcedExitNeedsTwoSignals | cmd/pdx/shutdown.go:146-189 | exit(130) is reached only after two signals were taken from the channel |
| ServeLifecycle.SecondSignalForcesExit | cmd/pdx/shutdown.go:178-186 | in every run, a second signal that is there while the sequence is under way is taken and ends the process with 130 |
| ServeLifecycle.FirstSignalIsTaken | cmd/pdx/shutdown.go:161-177 | the first signal during a sequence a signal did not start is taken, and the restart is cancelled if and only if there is one |
| ServeLifecycle.LateSignalDoesNotExit | cmd/pdx/shutdown.go:179-184 | a signal taken as the sequence ended does not exit |
| ServeLifecycle.SelectTakesWhateverIsReady | cmd/pdx/shutdown.go:119-133 | at the trigger select each ready channel can be taken and starts the sequence |
| ServeLifecycle.SignalsAreFree | cmd/pdx/main.go:391-437 | a signal can come at any time: delivered it is in the channel, without delivery it ends the process |
| ServeLifecycle.RestartsAreFree | cmd/pdx/shutdown.go:137-144 | a restart is accepted exactly once and only before the shutdown begins, and its hook fills the channel |
| ServeLifecycle.ServeMayReturn | cmd/pdx/shutdown.go:109-110 | Serve may return at any time, with or without an error |
| ServeLifecycle.CallsMayFail | cmd/pdx/shutdown.go:195-245 | every call of the sequence may succeed or fail and the sequence goes on |
| ServeLifecycle.RestartWarnings | cmd/pdx/shutdown.go:195-256 | a restart's warnings are one for each call that went wrong, in the order of the calls, then one for Serve's own error |
| ServeLifecycle.ShutdownNeverStuck | cmd/pdx/shutdown.go:119-262 | after the trigger some goroutine can always move, except while Serve has not returned |
| ServeLifecycle.InternalMovesLowerRank | cmd/pdx/shutdown.go:119-262 | every move of a goroutine lowers a rank, so the shutdown ends |
| ServeLifecycle.ApplyKeepsInv | cmd/pdx/main.go:391-437 | every step, at any point, keeps the invariant that ties signals, flags, sequence and return value together |
| LockHandoff.AtMostOneDaemon | cmd/pdx/daemon_pidlock.go:13-81 | however starts, probes, restarts, failed execs, crashes and stops interleave, at most one image is past the pid-lock gate |
| LockHandoff.OwnerExcludes | cmd/pdx/pidlock_handoff.go:27-77 | from the old image's acquire to the new image's adoption no other process can take the lock, shared or exclusive |
| LockHandoff.OwnershipLasts | cmd/pdx/pidlock_handoff.go:27-77 | only death, stop, an exec after a failed clear, or a failed fstat at adoption ends that ownership |
| LockHandoff.AdoptionSucceeds | cmd/pdx/pidlock_handoff.go:41-77 | an image that inherited the lock gets through the gate by adopting it |
| LockHandoff.LocksGuardedWhenForkable | cmd/pdx/reexec.go:92-132 | past the gate, whenever ForkLock is free both lock descriptors are close-on-exec, a failed exec included |
| LockHandoff.NoChildKeepsALock | cmd/pdx/reexec.go:92-132 | no child forked past the gate has a lock of its parent open after its own exec |
| LockHandoff.ProbeSeesTheOwner | cmd/pdx/daemon_pidlock.go:88-106 | while an image owns the lock every status probe is refused, and with no exclusive lock every probe passes |
| LockHandoff.FailedExecRestores | cmd/pdx/reexec.go:118-132 | after a failed exec both flags are set again before ForkLock is given up |
| LockHandoff.StopFreesTheLock | cmd/pdx/daemon_pidlock.go:45-60 | after a stop nobody holds the lock, whoever has a copy of the descriptor |
| LockHandoff.ApplyKeepsInv | cmd/pdx/pidlock_handoff.go:41-77 | every step of every process keeps the lock, descriptor and flag invariant |
| LockLeak.InheritableIffLeaked | cmd/pdx/config_gate.go:81-85 | past the gate with ForkLock free a descriptor is inheritable if and only if a skipped config gate left it behind, and then it holds the run lock |
| LockLeak.ChildKeepsExactlyLeaked | cmd/pdx/config_gate.go:81-85 | a child forked there has after its exec exactly the copies of those descriptors, and holds the run lock through them |
| LockLeak.HandedRunIsAdopted | cmd/pdx/config_gate.go:44-52 | an image that was handed the run lock and enters the gate adopts it, close-on-exec again |
| LockLeak.RestartCanLeak | cmd/pdx/config_gate.go:81-85 | every serving daemon with a run lock can restart into one that left it behind |
| LockLeak.ChildCanKeepTheRunLock | cmd/pdx/config_gate.go:81-85 | a reachable state in which a child past its exec holds the run lock of a daemon that serves without one |
| Reexec.CaptureEnv | cmd/pdx/reexec.go:35-55 | the loop keeps exactly the entries that are no hand-off entry, in order |
| Reexec.WithoutHandOffIsClean | cmd/pdx/reexec.go:35-55 | an entry is kept if and only if it was there and hands nothing over; keeping again changes nothing |
| Reexec.RestartsKeepBootEnv | cmd/pdx/reexec.go:35-55 | any number of restarts re-exec with the first image's environment |
| Reexec.Image.ClearAll | cmd/pdx/reexec.go:92-132 | exactly the held descriptors whose clear worked become inheritable, and only while ForkLock is held |
| Reexec.Image.RestoreAll | cmd/pdx/reexec.go:92-132 | every held descriptor is close-on-exec again before ForkLock is given up |
| Reexec.Image.Reexec | cmd/pdx/reexec.go:92-132 | at every instant with ForkLock free the inheritable descriptors are those of before; a successful exec keeps exactly the cleared ones besides |
| ConfigGate.NoWriteUnderADaemon | cmd/pdx/token.go:62-108 | an unforced token write never happens while any process that holds the run lock lives |
| ConfigGate.LoadedTokenStaysCurrent | cmd/pdx/config_gate.go:28-87 | the token every daemon with a run lock loaded is the file's, restarts included |
| ConfigGate.GateGivesRunLock | cmd/pdx/config_gate.go:38-63 | a daemon that enters the gate and can take or adopt the run lock leaves with the file's token and the lock |
| ConfigGate.GeneratorIsLetThrough | cmd/pdx/token.go:68-100 | a generator gets to its write exactly when the run lock is free and the pid lock is free or cannot be looked at |
| ConfigGate.StaleIff | cmd/pdx/token.go:68-100 | over every interleaving a daemon past its pid lock has an old token if and only if it has no run lock and the last write fell after its read, by a generator whose look at the pid lock came before the daemon took it or could not open the pid file |
| ConfigGate.StaleWithoutRunLock | cmd/pdx/config_gate.go:81-85 | the window is real: a reachable serving daemon with an old token, from a write between its ungated read and its pid lock |
| ConfigGate.WriteUnderAServingDaemon | cmd/pdx/token.go:68-100 | a generator that looked before the pid lock was taken can still write under the serving daemon |
| ConfigGate.PassedBeforeLock | cmd/pdx/daemon_pidlock.go:88-106 | a generator that may write looked before any serving daemon took its pid lock, or could not open the pid file |
| ConfigGate.BlindLookPasses | cmd/pdx/daemon_pidlock.go:89-92 | a reachable serving daemon under which a look that cannot open the pid file passes, and the write after it goes through |
| ConfigGate.OpenConfigGate | cmd/pdx/config_gate.go:28-87 | the retry loop decides by the first attempt that is no timeout within the deadline; refused exactly when all timed out, ungated exactly when the gate cannot be entered, and else the token read and whether a run lock is held |
| LogRotation.LogRotator.Write | cmd/pdx/logrotate.go:44-59 | what reaches the file is exactly what was answered as written before the first error, up to all of p; an error is reported if and only if it comes before p is out |
| LogRotation.LogRotator.Rotate | cmd/pdx/logrotate.go:100-168 | all or nothing over every pattern of failing calls, with writes interleaved: names, descriptors and inodes, old bytes followed by new bytes are all bytes written, and exactly when a compression is asked for |
| LogRotation.LogRotator.Commit | cmd/pdx/logrotate.go:121-168 | after the new file is open: every descriptor on the new file, or every one back on the old, no copy left open |
| LogRotation.LogRotator.SaveFds | cmd/pdx/logrotate.go:130-143 | the copies made so far are closed when one dup fails |
| LogRotation.LogRotator.SwitchFds | cmd/pdx/logrotate.go:144-155 | a failing dup2 puts back the descriptors already switched |
| LogArchive.Archive.Compress | cmd/pdx/logrotate.go:187-228 | wherever an attempt stops: the segment is whole in .rotating or generation 1, generations are complete and in order, at most the oldest one lost; it finishes if and only if every call it needs succeeds, and replaces a file if and only if AttemptClobbers says so |
| LogArchive.Archive.Retry | cmd/pdx/logrotate.go:231-268 | any number of attempts never loses the segment, n of them lose at most n generations, always the oldest, and they get done if and only if one of them has all it needs |
| LogArchive.Archive.Commit | cmd/pdx/logrotate.go:224-228 | the end of an attempt: finished if and only if both the rename and the removal of the source succeed |
| LogArchive.Archive.ShiftUp | cmd/pdx/logrotate.go:217-223 | the loop's state at every stop, and a rename replaces a generation if and only if the oldest is there and could not be removed and the one below it is there and is renamed |
| LogArchive.ClobberHappens | cmd/pdx/logrotate.go:217-223 | a concrete pair of generations whose older one is replaced |
| LogArchive.ShiftLosesOldest | cmd/pdx/logrotate.go:217-223 | a shift stopped anywhere leaves the list of generations as it was, less at most its oldest |
| LogArchive.ShiftKeepsOrder | cmd/pdx/logrotate.go:217-223 | a shift stopped anywhere leaves the order of generations, none newer than the segment, and all but the oldest there |
| LogArchive.CommitKeepsOrder | cmd/pdx/logrotate.go:217-228 | with the new generation 1 in place the order holds and every former generation is one up |
| RotatorThreads.NoCompressionAfterStop | cmd/pdx/logrotate.go:171-270 | in every interleaving one compression at a time, and none starts after stop set its flag |
| RotatorThreads.CompressionStarts | cmd/pdx/logrotate.go:171-183 | in every run a rotation that found the rotator running, and the starter, do start a compression when none is in flight, and stop can always set its flag |
| LogFiles.Files.Play | cmd/pdx/logrotate.go:44-228 | over any sequence of writes, rotations and compression attempts, whatever fails or dies in them, generations, .rotating and pdx.log read from the oldest on, each segment once, are the end of everything written |
| LogFiles.Files.RotateLog | cmd/pdx/logrotate.go:100-168 | a rotation hands the old file over as the next segment or leaves everything where it was, and the log's total stays told |
| LogFiles.Files.AttemptCompression | cmd/pdx/logrotate.go:187-228 | an attempt stopped anywhere leaves the segments an unbroken chain up to the newest |
| LogFiles.Files.ValidTellsTheEnd | cmd/pdx/logrotate.go:100-228 | whenever the chain is unbroken, the files are the end of everything written |
| LogFiles.ChainReadsAsRange | cmd/pdx/logrotate.go:217-228 | a chain, repeats read once, is a range of segments without a gap |
| LogFiles.AttemptKeepsChain | cmd/pdx/logrotate.go:187-228 | what an attempt does to the list keeps it a chain |
| StreamCheck.BatchIsFraming | electron/updater.ts:80-99 | the batch split rebuilds the text, cuts at the first separators and leaves none behind |
| StreamCheck.FramingIsUnique | electron/updater.ts:80-99 | no other cut does |
| StreamCheck.BatchExtends | electron/updater.ts:80-99 | reading on from what a prefix left gives the frames of the whole |
| StreamCheck.FrameLines | electron/updater.ts:90-97 | the events are, in order, the decodings of what follows `data: ` in exactly those lines of the frame that begin so and decode |
| StreamCheck.Drain | electron/updater.ts:86-98 | the inner loop hands over every complete frame and keeps the rest |
| StreamCheck.Stream | electron/updater.ts:80-99 | for every text and every cut into chunks: the payloads of exactly the data lines of the text's frames, in order, and no separator left in the buffer |
| StreamCheck.BatchDelivers | electron/updater.ts:80-99 | what one batch split gives is exactly the payloads of the data lines of the text's only framing |
| WakePath.ParseWakePath | cmd/pdx/watch_wake_path.go:22-52 | on every string the loops accept exactly the texts of the grammar and give the steps or the first error |
| WakePath.PathAcceptedIff | cmd/pdx/watch_wake_path.go:22-52 | a text is accepted if and only if it is a dotted list of keys, each with bracketed optionally signed numbers in range and perhaps one bracket left over |
| WakePath.PartAcceptedIff | cmd/pdx/watch_wake_path.go:25-48 | the same for one part |
| WakePath.PartRefusedBecause | cmd/pdx/watch_wake_path.go:25-48 | a refused part has no name, or begins with a name and good groups and goes wrong right after them, as the error says |
| WakePath.PathIsRead | cmd/pdx/watch_wake_path.go:22-52 | such a text is read as its keys and the values of its numbers |
| WakePath.PathPrintedIff | cmd/pdx/watch_wake_path.go:22-52 | printing what was read gives the text back if and only if no number has a sign or a leading zero and no bracket is left over |
| WakePath.IndexTextIff | cmd/pdx/watch_wake_path.go:35-39 | the numbers taken as an index are exactly digits with an optional sign in the range of int, a minus only before zero |
| WakePath.UnprintedTexts | cmd/pdx/watch_wake_path.go:32-47 | `a[+1]`, `a[01]` and `a[1][` are all read as a[1] and printed otherwise |
| WakePath.PathRoundTrip | cmd/pdx/watch_wake_path.go:22-52 | parsing the printed form of any non-empty list of steps gives the list back |
| WakePath.TrailingBracketAccepted | cmd/pdx/watch_wake_path.go:32-47 | printed steps followed by `[` are accepted as the same steps |
| WakeDocument.Document.ApplyWakePath | cmd/pdx/watch_wake_path.go:56-102 | it succeeds if and only if the path is there and the raw text means something for its leaf; then exactly that meaning is set and nothing else changes, and else the document is left and the reason named |
| WakeDocument.AssignSets | cmd/pdx/watch_wake_path.go:56-158 | the meaning, leaf by leaf: yes and no words, whole numbers in range written plainly, strings with `@` and `@@`, comma lists trimmed |
| WakeDocument.MeansOne | cmd/pdx/watch_wake_path.go:113-158 | a raw text means at most one value |
| WakeDocument.TrimSpaceIsTrim | cmd/pdx/watch_wake_path.go:119-122 | trimming takes away exactly the white space around, for any text |
| WakeDocument.TrimIsUnique | cmd/pdx/watch_wake_path.go:119-122 | there is only one such text |
| WakeDocument.AtoiIff | cmd/pdx/watch_wake_path.go:143-147 | the numbers taken are exactly the optionally signed digits in range |
| WakeDocument.DescendLeaves | cmd/pdx/watch_wake_path.go:61-90 | a failing descent names the first step that leaves the document and why |
| WakePath.AssignChangesOnlyItsPath | cmd/pdx/watch_wake_path.go:56-102 | a success sets exactly the new value at the path, of the old kind; what extends the path reads inside it, every kind above stays, and every path that does not overlap reads as before |
| WakePath.AssignmentsCommute | cmd/pdx/watch_wake_path.go:56-102 | two assignments to paths that do not overlap commute, failures included |
| WakePath.NewValueKeepsKind | cmd/pdx/watch_wake_path.go:113-158 | a new leaf has the kind of the old one |
| WakePath.ListRoundTrip | cmd/pdx/watch_wake_path.go:113-130 | a list written with commas is read back |
| GateShim.UnquoteQuote | cmd/pdx/gate_shim_owned.go:55-65 | unquoting inverts quoting on every string |
| GateShim.PathIsRecovered | cmd/pdx/gate_shim_owned.go:68-82 | the path is found again in the printed shim, whatever lines follow the path line |
| GateShim.AcceptsExactlyTheScripts | cmd/pdx/gate_shim_owned.go:68-91 | whatever text surrounds it, a script is accepted if and only if it holds some quoted path in its place |
| GateShim.AcceptsExactlyTheShims | cmd/pdx/gate_shim_owned.go:84-91 | a content is accepted for a tool if and only if the generator prints it for some path, whatever lines follow the path line |
| GateShim.PathIsUnique | cmd/pdx/gate_shim_owned.go:10-53 | no two paths print the same shim |
| GateShim.ToolsArePlain | cmd/pdx/setup_gate.go:13 | the tools setup writes shims for meet the condition of these results |
| GateShim.ShellValue | cmd/pdx/gate_shim_owned.go:13 | what PDX_BIN becomes by the path line, for every path and every value it had before |
| GateShim.ShellReadsPathBack | cmd/pdx/gate_shim_owned.go:13 | with PDX_BIN unset a shell gives the path back if and only if it holds no closing brace or only closing braces after its first |
| GateShim.ShellKeepsOverride | cmd/pdx/gate_shim_owned.go:13 | a PDX_BIN that is set is kept as it is if and only if the path holds no closing brace |
| GateShim.BraceInPathIsMisread | cmd/pdx/gate_shim_owned.go:13 | a concrete path that is not given back |
| CleanExit.MarkNames | cmd/wwd/cleanexit.go:29-37 | a run's mark names that run, a temporary file names none |
| CleanExit.DataDir.WriteCleanExit | cmd/wwd/cleanexit.go:41-61 | whichever of its calls fail or are where the process dies, the mark is there exactly when all of them up to the rename worked, and a failure that could clean up leaves nothing |
| CleanExit.DataDir.JudgePrevExit | cmd/wwd/cleanexit.go:67-90 | for whatever the glob lists: first without a record, unknown without a verdict in it, else clean if and only if some listed mark of another run is not older than the record; and exactly the listed removable marks of other runs go |
| CleanExit.DataDir.RemoveOtherMarks | cmd/wwd/cleanexit.go:93-100 | exactly the listed removable marks of other runs go |
| CleanExit.NewestDecides | cmd/wwd/cleanexit.go:68-90 | the newest other listed mark alone decides whether any listed mark is not older than the last record |
| CleanExit.ListedOfHere | cmd/wwd/cleanexit.go:68 | a listing of the directory's own files names only its marks, and all of them when it is whole |
| CleanExit.RemainingMarks | cmd/wwd/cleanexit.go:93-100 | only listed marks of other runs go, and all of them with a whole listing and every removal working |
| StartHistory.VerdictIsExact | cmd/wwd/cleanexit.go:67-118 | over every history and every listing: exactly when unclean is wrong and exactly when clean is, in terms of marks lost to unrecorded starts, not listed, or stray |
| StartHistory.PlainVerdictIsExact | cmd/wwd/cleanexit.go:67-118 | in a directory without metacharacters clean is never wrong, and unclean is wrong if and only if some mark answered and every such mark was lost or not listed |
| StartHistory.VerdictIsRightWithNothingLost | cmd/wwd/cleanexit.go:105-118 | with every mark listed and nothing lost the verdict is clean if and only if some run at or after the last recorded one left its mark |
| StartHistory.LostIff | cmd/wwd/cleanexit.go:105-118 | a mark is among those if and only if some start removed it and ended, with no record written since it judged |
| StartHistory.LostRecordBlamesAPlannedStop | cmd/wwd/cleanexit.go:105-118 | the reachable history in which a planned stop is called unclean because its mark was lost |
| StartHistory.UnlistedMarkBlamesAPlannedStop | cmd/wwd/cleanexit.go:68 | one with nothing lost, where the glob does not list the mark |
| StartHistory.StrayMarkExcusesACrash | cmd/wwd/cleanexit.go:68 | one in which a crash is called clean because the glob lists another directory's mark |
| StartHistory.MarkCountsOnce | cmd/wwd/cleanexit.go:67-118 | a mark makes at most one start clean once that start's record is written, even if its removal failed |
| StartHistory.PlannedStopIsClean | cmd/wwd/cleanexit.go:67-136 | in every history a recorded run that is asked to stop and leaves its mark makes the next start clean |
| StartHistory.CrashIsUnclean | cmd/wwd/cleanexit.go:67-136 | and one that dies without its mark makes it unclean |
| StartHistory.ApplyKeepsInv | cmd/wwd/cleanexit.go:105-136 | starts, signals, judgements, records and deaths in any order keep the tie between marks, records and what was removed |
| BadgeUnion.BadgeCount | electron/badge.ts:52-70 | the loops give the size of the counted set of entries, the text namespaces never merging |
| BadgeUnion.ResolvedIsLeast | electron/badge.ts:60-62 | the map keeps the least resolved session of each card |
| BadgeUnion.CountIsDeclaredIff | electron/badge.ts:52-70 | the count never exceeds the declared union and equals it exactly when every fallback survives |
| BadgeUnion.AgreedCountIsDeclared | electron/badge.ts:52-70 | when reports agree on fallbacks the count is the size of the declared union |
| BadgeUnion.CountIgnoresOrder | electron/badge.ts:52-70 | then it is the same for every order and grouping of reports, sessions and cards |
| BadgeUnion.DisagreementCountsByOrder | electron/badge.ts:59 | without agreement two orders of the same cards give 2 and 1 |
| BadgeCenter.Center.Set | electron/badge.ts:79-82 | the number applied last is the count of the reports, and none is applied twice in a row |
| BadgeCenter.Center.Drop | electron/badge.ts:84-86 | the same after a window's report is dropped |
| BadgeCenter.Center.Clear | electron/badge.ts:89-91 | the same, and a number is applied even with no report |
| BadgeCenter.PutIsExact | electron/badge.ts:79-80 | setting a window's report changes no other window's |
| BadgeCenter.WithoutIsExact | electron/badge.ts:84-86 | dropping one drops no other |
| BadgeCenter.Window.DocumentOver | electron/badge.ts:127-134 | the list of ended documents after the push and shift, and the dropped report |
| BadgeCenter.Window.Submit | electron/badge.ts:154-166 | a report is taken if and only if it is well formed and its document is not over; a refused one changes nothing |
| BadgeCenter.PlayKeepsDocsInv | electron/badge.ts:107-166 | over every sequence: no duplicates, at most eight, never the current document |
| BadgeCenter.StaleIsLastEight | electron/badge.ts:107-134 | the refused documents are exactly the last eight that ended |
| BadgeCenter.RefusedAfterEnd | electron/badge.ts:154-166 | a document that ended while current is refused through the next seven ends, and no longer after eight |
| BrowserViews.Manager.Open | electron/browser-view-manager.ts:62-133 | a live pane is activated, a discarded one opens at its saved URL, a refused URL opens nothing; no other pane changes |
| BrowserViews.Manager.PutBehind | electron/browser-view-manager.ts:250-278 | at most three views are left in background; those evicted are the least recently activated, and each has its snapshot |
| BrowserViews.Manager.EnforceMaxBackground | electron/browser-view-manager.ts:322-333 | the eviction loop removes exactly the excess, oldest first |
| BrowserViews.Manager.Discard | electron/browser-view-manager.ts:295-320 | a view becomes a snapshot unless its window is gone, and its timer goes |
| BrowserViews.Manager.TimerFires | electron/browser-view-manager.ts:280-285 | a firing timer discards its background view and keeps the maps consistent |
| BrowserViews.Manager.CheckMemoryLimit | electron/browser-view-manager.ts:335-359 | when the pages together take more than the limit, exactly one least recently activated background view goes, and otherwise nothing changes |
| BrowserViews.Manager.SumMemory | electron/browser-view-manager.ts:337-346 | the loop adds up the memory of all live pages |
| BrowserViews.Manager.Destroy | electron/browser-view-manager.ts:184-196 | the view and its timer go, snapshots stay |
| BrowserViews.Manager.CleanupForWindow | electron/browser-view-manager.ts:392-402 | exactly the views of the window go |
| BrowserViews.Manager.DestroyAll | electron/browser-view-manager.ts:404-418 | nothing is left |
| BrowserViews.Manager.GetMetrics | electron/browser-view-manager.ts:361-390 | one line for each page that is not destroyed and each snapshot, with its state, and no pane twice |
| BrowserViews.SortBackground | electron/browser-view-manager.ts:323-325 | the background panes, each once, least recently activated first |
| RefTasks.SortedIsUnique | cmd/wwd/reftasks.go:150-164 | two listings of one manifest are equal, so map order never shows |
| RefTasks.ReferenceTasks | cmd/wwd/reftasks.go:150-164 | exactly the tasks with a reference, sorted by name; nothing when the content does not parse |
| RefTasks.EnvironmentNeeds | cmd/wwd/reftasks.go:139-148 | the loop is the filter whose effect NeedsDropOnlyOwn states |
| RefTasks.NeedsDropOnlyOwn | cmd/wwd/reftasks.go:139-148 | only the task's own two labels are dropped, every other label stays as often as it was there |
| RefTasks.TagExact | cmd/wwd/reftasks.go:95-99 | every task is named after its repo and keeps its task, reference and all labels but its own two |
| RefTasks.ManifestSource | cmd/wwd/reftasks.go:72-87 | a repo read at a ref never falls back to the working tree, and one without a clone has no manifest |
| RefTasks.Source.Read | cmd/wwd/reftasks.go:69-107 | the cached answer is the fresh parse of every current manifest in repo order, and the cache keys are exactly the live manifests |
| RefTasks.Source.Tasks | cmd/wwd/reftasks.go:53-66 | within ttl the last answer, else what is there now |
| RefTasks.FreshIsUnique | cmd/wwd/reftasks.go:69-107 | there is only one fresh answer, so a cached one cannot differ from it |
| Lsof.ParseLsofF0 | electron/local-daemon/lsof.ts:8-31 | the nested loops compute the fold over the output's fields |
| Lsof.FieldsOfLayout | electron/local-daemon/lsof.ts:12-15 | however NULs and newlines are placed, the same fields are read |
| Lsof.ListingRoundTrip | electron/local-daemon/lsof.ts:8-31 | any list of processes and files reads back from its printed form |
| Lsof.OtherTagsAreIgnored | electron/local-daemon/lsof.ts:18-27 | fields of any other tag may stand anywhere and change nothing |
| Lsof.OrphansAreIgnored | electron/local-daemon/lsof.ts:22-26 | files before any process and names before any file belong to nobody |
| Lsof.TxtPathsExact | electron/local-daemon/lsof.ts:33-35 | the names of the txt files of exactly that process |
| Lsof.ListenersExact | electron/local-daemon/lsof.ts:37-41 | a pid is listed if and only if one of its files is the address or the wildcard |
| Lsof.OwnershipExact | electron/local-daemon/lsof.ts:59-68 | external if and only if some listener is not our live process; the other two answers and the process named |
| LaunchPath.EnvCache.Refresh | electron/local-daemon/index.ts:82-88 | a failed probe never replaces a shell PATH |
| LaunchPath.EnvCache.Cached | electron/local-daemon/index.ts:75-78 | the first probe is memoised and what a refresh found is reused |
| LaunchPath.CacheIsLastShellAnswer | electron/local-daemon/index.ts:75-88 | over every sequence of uses the PATH kept is the last one the shell gave |
| LaunchPath.FallbackMeansNeverAnswered | electron/local-daemon/index.ts:75-88 | a fallback is used only while the shell never answered |
| LocalDaemon.SwapIsVerified | electron/local-daemon/index.ts:337-410 | the binary is replaced only by bytes of the declared length and sum that ran and printed the declared build for this platform |
| LocalDaemon.SwapIsReleased | electron/local-daemon/index.ts:511-519 | before it an ownership decision made after the new binary was verified is not foreign, and a process it named was afterwards seen dead with the very address decided on refused |
| LocalDaemon.RestartStartsReleased | electron/local-daemon/index.ts:544-550 | a restart starts only after a decision made later than its status, not external, and a live process it named was since seen dead with the very address decided on refused |
| LocalDaemon.StartsOnlyWhatIsDown | electron/local-daemon/index.ts:530-571 | a start and an ensure start only when status said managed and not running |
| LocalDaemon.StatusIsDecided | electron/local-daemon/index.ts:300-334 | a status that is not external answers what was decided in it |
| LocalDaemon.MineIsSeen | electron/local-daemon/index.ts:266-285 | the process called ours is alive, and a txt file of it by a listing of the same pass is our binary |
| LocalDaemon.GateRefusesOnlyBecause | electron/local-daemon/index.ts:122-184 | the gate refuses only what is known not to resolve, or cannot be asked and was looked for in every directory of PATH |
| LocalDaemon.StopIsOwnedAndGated | electron/local-daemon/index.ts:541-552 | only a process the latest decision calls ours is stopped, and in a restart only after its gate passed |
| LocalDaemon.StartIsGated | electron/local-daemon/index.ts:179-184 | every start follows a passed gate of the same operation with no swap in between, and the gate had its reason: pdx resolves, there is no binary, or a directory of PATH was found to hold one |
| LocalDaemon.Daemon.Download | electron/local-daemon/index.ts:337-393 | what is kept as pdx.new has the declared length and sum, and after a failure pdx.new is as it was or was removed |
| LocalDaemon.Daemon.StopDaemon | electron/local-daemon/index.ts:418-432 | it ends well only after the process was seen dead with the given address refused, and it ends |
| LocalDaemon.DecisionIsSound | electron/local-daemon/index.ts:275-298 | a decision is external if and only if somebody listens at the address who is not the live process it names, and that process was seen to be ours in the same pass |
| LocalDaemon.Daemon.ResolveOwner | electron/local-daemon/index.ts:275-298 | the pass ends in a decision about the given address or finds ownership unavailable; the live process named is exactly the pid file's if it lives and runs our binary |
| LocalDaemon.Daemon.InstallDaemon | electron/local-daemon/index.ts:487-528 | keeps the trace justified for every answer from outside; the binary changes only by a swap, and success means it was swapped and the build on disk answers |
| LocalDaemon.Daemon.RestartDaemon | electron/local-daemon/index.ts:541-552 | the gate comes first and a refusal there is the last thing that happens; what it answers follows from gate and status; success means the build on disk answers |
| LocalDaemon.Daemon.StartOperation | electron/local-daemon/index.ts:530-539 | what it answers follows from gate and status: refused, not managed, already running, or at most one start; success means the build on disk answers |
| LocalDaemon.Daemon.StartDaemon | electron/local-daemon/index.ts:434-449 | started is said if and only if health reports a real build hash equal to that of the binary on disk |
| LocalDaemon.Daemon.EnsureRunningDaemon | electron/local-daemon/index.ts:556-582 | its answer is exactly the one gate and status call for, and it gives up after three starts |
| OperationQueue.NeverOverlap | electron/local-daemon/index.ts:48-53 | over every schedule an operation begins only when every earlier call is done, failed or not |
| OperationQueue.FirstCalledFirstBegun | electron/local-daemon/index.ts:48-53 | operations begin in the order of the calls |
| OperationQueue.QueueMoves | electron/local-daemon/index.ts:48-53 | a failed operation never holds up the queue |
| OperationQueue.CallsAndEndsAreFree | electron/local-daemon/index.ts:48-53 | a call is always taken, and a running operation may end either way and lets its tail settle |

## Left out

- Windows, menus, tray, preload, notifications, the HTTP commands, flag parsing and table output: framework calls, or easy case lists.
- Real time: deadlines are an arbitrary clock (local daemon) or a number of attempts (config gate); gzip, JSON, TOML and the TextDecoder are taken as given, sha256 as injective in `RefTasks.dfy` and as any function in `LocalDaemon.dfy`.
- LogRotation.LogRotator.Rotate: both descriptors are taken to be on the log when it begins (the program looks at the first only), and the undo renames, dup2s and closes are taken to succeed.
- LogArchive.Archive.Compress: a crash between the commit and the removal of the source archives the segment again on the next attempt; the contract allows it.
- LockHandoff.LocksGuardedWhenForkable: covers descriptors the image acquired or adopted; what a skipped gate leaves is in LockLeak. A run-lock descriptor closed by a failed pid-lock adoption that reused its number is not followed further.
- ConfigGate.NoWriteUnderADaemon: the forced form of `pdx token generate` is not part of the model, and the data directory the file names is taken not to change.
- WakeDocument.Document.ApplyWakePath: a file's length is counted in characters, and the document is a value, so sharing of sub-objects inside Go maps and slices is not captured.
- GateShim.AcceptsExactlyTheShims: the shell lines after the path line are a parameter.
- WakePath.ListRoundTrip: the list of one empty string is left out because it prints as the empty list does.
- CleanExit.DataDir.JudgePrevExit: the matching of filepath.Glob is not modelled; any listing is allowed.
- StartHistory.VerdictIsExact: stamps grow strictly and runs do not overlap; a clock that goes back is not part of the model, nor is the pruning of old start records, which never removes the last one.
- BrowserViews.SortBackground: views with equal times may come in any order; a discard that throws is not modelled.
- BadgeCenter.Window.Submit: the shape check of a report is a parameter, and the once-only listeners and `onFirst` are not modelled.
- RefTasks.Source.Read: how a manifest file is found and read is a parameter for each repo and call.
- Lsof.ListingRoundTrip: JavaScript's Number is a parameter that must read printed process ids back.
- LocalDaemon.Daemon.StartDaemon: hashes are taken as already trimmed; the reading and first writing of the config, and the reply of an operation, are arbitrary answers.
- LocalDaemon.Daemon.InstallDaemon: pdx.new is taken to be written by this app alone.
