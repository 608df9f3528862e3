# vitro, verified

vitro starts disposable virtual machines, runs commands in them, follows those commands, turns
machines into golden images and downloads what it builds them from. Much of it is thin: a call to
QEMU, lume, ssh or a web server. This project models what lies between those calls - the
protocols several processes follow, the text one program writes and another reads, the loops over
untrusted bytes - and proves what they are for.

| file | what it models |
|---|---|
| `Lifecycle.dfy`, `LifecycleProofs.dfy`, `LifecycleSafety.dfy`, `LifecycleReading.dfy`, `LifecycleReaping.dfy`, `LifecycleProgress.dfy` | any number of `run`, `destroy`, `destroy --all` and `promote` processes over one record store, one process table with reusable PIDs and one try-lock, as interleaved steps; records that a listing fails to read; what each operation gets done |
| `Records.dfy` | one VM directory as files: writing, reading and removing its record |
| `Store.dfy`, `Commands.dfy`, `Promotion.dfy` | the same commands as one process carries them out: loops, waits, the drop guard |
| `PosixShell.dfy`, `ShellWriting.dfy` | the POSIX shell's token recognition, quoting and grammar (sections 2.2, 2.3, 2.9 and 2.10 of the Shell Command Language, POSIX.1-2017), and command lines written as structures |
| `Ssh.dfy`, `Quoting.dfy` | quoting, `compose`, `parse_env`; what a shell makes of them |
| `Jobs.dfy`, `JobStart.dfy` | starting a detached job through three shells |
| `PowerShell.dfy`, `PowerShellScripts.dfy`, `PowerShellJobs.dfy` | PowerShell's single-quoted strings; a small reader of its statements; command lines, job scripts and the line that starts a job, as that reads them |
| `Bytes.dfy`, `Text.dfy`, `Base64.dfy`, `JobPolling.dfy`, `JobLooks.dfy`, `JobListing.dfy` | the reply to a poll, following a job whose replies may be lost, what "lost" and "running" are worth, listing jobs |
| `Publish.dfy` | publishing a macOS golden image with backup and rollback |
| `Media.dfy`, `MediaProofs.dfy`, `Download.dfy` | the concurrent range download; the partial file |
| `Iso.dfy`, `IsoLayout.dfy`, `IsoTree.dfy` | the ISO9660 reader (ECMA-119) |
| `Rfb.dfy`, `Pixels.dfy`, `Vnc.dfy` | the RFB screen capture (RFC 6143) |
| `Golden.dfy`, `Readiness.dfy`, `Keys.dfy`, `Pointer.dfy` | dated names, the readiness loop, chords of keys, drags and tablet coordinates |

`dafny verify dfyconfig.toml` checks all of it.

How it is built: what the source computes is a function; what it does step by step is a method
over a class or an array, proved equal to such a function or against its promise; what several
processes do together is a state machine, with theorems over every trace. What the outside world
does - processes dying, replies getting lost, records failing to be read, commands and removals
failing in full, in half or not at all, short writes, the clock - is given from outside and
unrestricted unless said below.

## What turned out not to hold

- A record that a listing fails to read is taken for debris, whatever its process does
  (src/state.rs:218-231, src/commands/run.rs:401-420, src/commands/destroy.rs:78-83): one failed
  read and the next removal leave a guest running that nothing leads to (`MisreadLosesAGuest`).
  A record is safe, whatever anyone does, exactly when each listing made while its process lives
  can read it (`SafeExactlyWhenRead`, `RecordOutlivesGuest`).
- A first word shaped like an assignment (`A=b make`), or, without variables in front, a bare
  reserved word, is not run as a command (`AssignmentShapedWordIsLost`, `ReservedWordIsLost`).
  `ComposeReadBack` and `JobStart.StartReadBack` give the exact condition; that the words come
  through unaltered holds without one (`ComposedWords`, `ShellJoinReadBack`, `TextReadBack`).
- PowerShell also ends a single-quoted string at U+2018 to U+201B, which `powershell_literal`
  leaves alone although its comment says that nothing in the literal expands (src/ssh.rs:281-285;
  `TypographicQuoteIsLost`). `LiteralReadBack`, `LineReadBack`, `ScriptReadBack` and
  `PowerShellJobs.StartReadBack` are equivalences with their absence.
- `attach` ends on a reply that it does not understand: exactly one that caught the exit file
  created but not yet written (`GarbledExactly`, `UnreadExactly`, `GarbledHappens`).
- "Lost" may be said of a job that did record its code, even with a good pid file
  (`LostMayBeWrong`), and of a job that still runs while its pid file is not written, is empty or
  does not name it (`BlankPidIsLost`). It is right exactly when the job was over without a code by
  the second of the poll's two looks (`LostExactly`; `LostByName` when the pid file names it).
  A second "lost" is right, whatever happens, exactly when the job was not running its command any
  more at the end of the first answer (`SecondLostIsRight`), and asking again tells the code
  exactly when none was still to come by then (`SecondAskRecovers`).
- "Running" may be said of a job that is gone, once its PID was taken over (`ReusedPidIsRunning`,
  `RunningExactly`): `attach` then goes on following.
- The log that comes with an exit code is the whole log exactly when nothing the command left
  behind still holds it (`WholeLog`).
- After a build that stopped half-way and could not restore, the next build deletes the backup
  its predecessor's error message pointed to (`SecondBuildLosesTheImage`). `SafeExactlyWhenInUse`
  says which starting points are safe.
- An ISO path that goes on beyond a file is looked up in the file's bytes (`FilesAreGoneThrough`),
  and may be found there (`FoundInAFile`). A path outside the tree is missing whatever the files
  hold exactly when it goes through none that holds anything (`MissingExactly`).
- `-a` is read as minus and a: after a minus written as a dash the separator may be missing
  (`DashMayBeMissing`, `OnlyChordsAreRead`).
- A drag of more than 2^31 steps can miss its target, because a product leaves 64 bits
  (src/pointer.rs:73-76): all drags of so many steps arrive exactly up to 2^31 (`ArrivesExactly`).

## Model

| member | source | states |
|---|---|---|
| `LifecycleSafety.RecordOutlivesGuest` | src/commands/run.rs:98-161 | in every interleaving, a VM directory whose record names a process keeps its place and its record until that process is dead, unless a listing could not read that record while it was alive |
| `LifecycleSafety.NoGuestIsLost` | src/commands/run.rs:567-593 | every live guest a `run` started is named by a record, guarded by the `run` starting it, was reported as possibly running, or has a record that a listing could not read |
| `LifecycleSafety.WasAlive` | src/state.rs:137-143 | with (PID, start time) never reused, a process alive later was alive at every earlier moment it was known at, however often its PID changes hands |
| `LifecycleSafety.SnapshotIsNeverEarly` | src/commands/run.rs:401-420 | what a locked `reap_dead` takes for dead by its snapshot is dead at any later moment of that reaping: the snapshot errs only towards "running" |
| `LifecycleSafety.LockExcludes` | src/state.rs:392-414 | at most one process is between taking the lock and letting go of it |
| `LifecycleSafety.CreationIsUndisturbed` | src/commands/run.rs:98-143 | from creating its directory to releasing the lock a `run` finds the directory as it left it: no reaper and no `destroy --all` takes it between creation and record |
| `LifecycleSafety.OverlaySurvives` | src/commands/promote.rs:73-92 | from the shutdown of a committed VM until `promote` has converted it and is done, nobody else touches its directory |
| `LifecycleSafety.OthersStepAside` | src/commands/run.rs:95-103 | while one process holds the lock, a step of another changes no directory but that of the VM it is itself undoing |
| `LifecycleSafety.AGuestCanBeMade` | src/commands/run.rs:95-161 | there are such interleavings in which a guest is made, recorded, committed and left running |
| `LifecycleProofs.InvHolds` | src/commands/run.rs:95-161 | the invariant behind these holds in every state of every trace: what each process relies on, at each of its points, is true |
| `LifecycleProofs.NextKeeps` | src/commands/destroy.rs:45-127 | each step of each process, each exit and each foreign process keeps that invariant, removes no record of a live process that could always be read, and revives none |
| `LifecycleProofs.Frame` | src/state.rs:386-414 | what a process relies on survives every step of another: while it holds the lock, or about another VM |
| `LifecycleProofs.GoneIsDead` | src/process.rs:186-210 | what `stop_and_wait` takes for gone is dead, whether the start time was known yet or not |
| `LifecycleProofs.ReapingIsSound` | src/commands/run.rs:401-420 | an entry of an old listing that an old snapshot makes stale names no live process when it is removed, in whole or in part, or was misread in that listing |
| `LifecycleProofs.SweepingIsSound` | src/commands/destroy.rs:61-86 | the same for `destroy --all`, which takes an entry it could not read for debris |
| `LifecycleReading.SafeExactlyWhenRead` | src/state.rs:218-231 | after any trace and a listing, the record of a live process stays, however things go on, exactly when that listing read it, provided no other fails to |
| `LifecycleReading.AllSafeExactlyWhenRead` | src/state.rs:206-234 | all records of live processes are safe after a listing exactly when it overlooks none of them |
| `LifecycleReading.MisreadLosesAGuest` | src/commands/destroy.rs:78-83 | a trace in which one listing fails to read one record, and a guest runs on with no record, no guard and no report |
| `LifecycleReaping.StartsOnceDeadAreGone` | src/commands/run.rs:401-420 | in every trace, a `run` that gets from reaping to its own directory has by then removed every directory it listed that it could not read or that its snapshot does not show with the recorded PID and start time |
| `LifecycleProgress.DestroyGetsThrough` | src/commands/destroy.rs:45-57 | from any state with the lock free, a `destroy` of a VM with a readable record whose process is not alive can get by its own steps to where its directory is gone, the lock is free and all else is as it was |
| `LifecycleProgress.PromoteGetsThrough` | src/commands/promote.rs:43-99 | so can a `promote` of a VM whose PID no process has |
| `LifecycleProgress.GuardGetsThrough` | src/commands/run.rs:567-593 | and a `run` that undoes its VM, once the guest is not alive; or, when it never learnt its start time, once no process has its PID |
| `Store.Host.Wait` | src/process.rs:168-179 | ends with the first look, every 200 ms, that does not find a process with that PID (and start time), comes after the timeout or, where it counts, comes after a Ctrl-C; answers what that look showed |
| `Store.Host.StopAndWait` | src/process.rs:196-213 | ten seconds of such looks after asking, then five after insisting that no Ctrl-C cuts short; gone exactly when the last look showed it |
| `Store.Store.List` | src/state.rs:206-234 | every VM directory, each once |
| `Records.Save` | src/state.rs:360-376 | at every moment of writing, and after a crash at any, the record read is the old one, until the last step makes it the new one; that is reached exactly when every step goes well; a failure leaves the old record and no scratch that can be removed |
| `Records.Remove` | src/state.rs:379-386 | missing is success, success leaves nothing; a failure leaves exactly what comes from the file it stopped at on, and nothing removed comes back on the way |
| `Records.PartlyRemoved` | src/state.rs:379-386 | at any moment of a removal the directory shows as it was or as debris; as it was exactly while the record file is there |
| `Store.ReapDead` | src/commands/run.rs:401-420 | exactly those directories stay whose record can be read and names a PID that the table shows with the recorded start time, and they stay as they were; the others are returned; one that cannot be removed ends it, with none but such gone or begun with |
| `Commands.VmGuard.Drop` | src/commands/run.rs:567-593 | unless committed, the directory goes, or as much of it as can, but never before the process was seen gone; otherwise it stays and that is said |
| `Commands.Run` | src/commands/run.rs:95-161 | a VM that runs is recorded, and beside it exactly those are left that were alive by their records; one that is undone leaves nothing, unless its guest was not seen gone or its directory cannot be removed; none that was alive is touched |
| `Commands.Prepare` | src/commands/run.rs:95-103 | the part of `run` up to its directory: under the lock, with exactly those left that are alive by their records; a refusal has begun with none of them |
| `Commands.Make` | src/commands/run.rs:101-161 | the part of `run` from its directory on: recorded and committed, or undone with the guest seen gone or reported; until there is a record, undone under the lock |
| `Commands.Launch` | src/commands/run.rs:105-140 | the guard knows the PID before the start time and the start time before the record; a record is written only with both |
| `Commands.GoneIsSeen` | src/process.rs:193-210 | what the guard waits for is its guest, even when the PID was taken over before the start time was read |
| `Commands.SeenDeadIsDead` | src/state.rs:137-143 | a process seen gone once is gone for good |
| `Commands.Stop` | src/commands/destroy.rs:100-127 | failure exactly when the last look showed the process, cleaned up exactly when the first did not; in between two minutes of looks after a graceful request, or the ten and five seconds of a stop |
| `Commands.DestroyOne` | src/commands/destroy.rs:45-57 | the VM goes, or is begun with, only once its process was seen gone; whatever fails, no other directory changes, and nothing does unless its own removal failed |
| `Commands.DestroyAll` | src/commands/destroy.rs:61-86 | every VM gets an outcome and goes exactly when that is not a failure; what could not be read goes without a look; one directory that cannot be removed ends it, and is the only one left in part |
| `Promotion.Install` | src/golden.rs:141-156 | at every moment the destination is as it was or the whole new image; a failure leaves the destination as it was before, and no staging file unless that cannot be removed |
| `Promotion.ShutDown` | src/golden.rs:41-75 | success only when a look showed no process with the PID; giving up only after the timeouts, or a Ctrl-C |
| `Promotion.Quiesce` | src/commands/promote.rs:73-81 | the disk may be copied only after a look showed no process and, after that, no Ctrl-C |
| `Promotion.Promote` | src/commands/promote.rs:43-99 | the VM goes, or is begun with, only once its disk is whole at the destination, which is written only once its process was gone and nobody asked to stop; every failure has its cause; no other directory changes |
| `QuotingProofs.ShellJoinReadBack` | src/ssh.rs:233-242 | token recognition and quote removal undo `shell_join` on every list of words |
| `QuotingProofs.ComposedWords` | src/ssh.rs:244-279 | on every command, directory and variables: the words come through `compose` unaltered, after exactly the words and the `&&` it puts in front |
| `QuotingProofs.ComposeReadBack` | src/ssh.rs:244-279 | the shell runs the words, in the directory and with the variable values asked for, exactly when the first word reaches it as a command |
| `QuotingProofs.AssignmentShapedWordIsLost` | src/ssh.rs:287-298 | the input that shows the condition is needed |
| `QuotingProofs.ReservedWordIsLost` | src/ssh.rs:244-279 | and for its other half: a bare `if` |
| `QuotingProofs.QuotedValues` | src/ssh.rs:287-298 | every quoted word stands for its text, without expansion |
| `ShellWriting.LexQuoted` | src/ssh.rs:287-298 | `quote` adds exactly the letters of its argument to the word the lexer is in, whatever comes after |
| `ShellWriting.ReadBack` | src/jobs.rs:81-94 | any command line printed from a structure - words, quotes, redirections, groups, connectors - parses back to what the structure means |
| `Ssh.ParseEnv` | src/ssh.rs:154-167 | a setting that is taken has a name either shell could assign, and is the text again when joined |
| `Ssh.ParseEnvTakesEveryName` | src/ssh.rs:154-167 | every such name is taken, whatever the value holds, split at the first `=` |
| `Ssh.JoinAnywhere` | src/ssh.rs:233-242 | wherever a command is cut in two, joining it puts one blank between the parts |
| `JobStart.TextReadBack` | src/jobs.rs:75-96 | the login shell and `sh -c` hand the job's text to `nohup sh -c` to the letter, for every command, directory and variables |
| `JobStart.JobReadBack` | src/jobs.rs:81 | the innermost shell runs what was asked for, with output and errors in the log, and records the exit code after it; exactly under the condition of `ComposeReadBack` |
| `JobStart.StartReadBack` | src/jobs.rs:75-96 | both together, through all three shells |
| `JobStart.PrintScript` | src/jobs.rs:82-95 | the script vitro writes is the structure the proofs are about |
| `PowerShell.LiteralReadBack` | src/ssh.rs:281-285 | a literal reads back as its text exactly when that holds no typographic quotation mark |
| `PowerShell.TypographicQuoteIsLost` | src/ssh.rs:281-285 | a text that does not read back |
| `PowerShellJobs.StartReadBack` | src/jobs.rs:97-121 | the one string that starts a Windows job is read as: make the directory `.vitro-jobs\id`, note the command in `cmd`, and run as `run.ps1` a script with exactly the statements asked for, then the command, then its exit code into `exit`; exactly when neither the command nor a string of the prelude holds a typographic quotation mark |
| `PowerShellScripts.ScriptReadBack` | src/jobs.rs:98-108 | the script alone is read so: the refreshed path, the directory and each variable by name and value, in order, the command as the rest, and then `$LASTEXITCODE` into the file `exit` beside it; exactly when the strings of the prelude are plain |
| `PowerShellScripts.LineReadBack` | src/ssh.rs:259-278 | so is the line of a command that is not a job |
| `PowerShellJobs.ReadIsShorter` | src/jobs.rs:109-120 | what PowerShell takes for the script is, counting marks twice, shorter than the script by the typographic marks in it and in the command |
| `PowerShellJobs.ReadScriptIsLonger` | src/jobs.rs:98-108 | while a text that says what the script was to say is longer than the script by twice those of the prelude: so both only without any |
| `Jobs.StatusReadBack` | src/jobs.rs:178-204 | every status, with every 32-bit code, is read as the guest writes it, with either line end |
| `Jobs.EmptyExitIsNoStatus` | src/jobs.rs:195-204 | an exit file still empty is no status |
| `JobListing.ListReadBack` | src/commands/jobs.rs:138-148 | every job of a listing is read back, with its status and its command, bar white space around that |
| `Base64.EncodeDecode` | src/commands/jobs.rs:132-134 | decoding undoes encoding on all bytes |
| `Base64.DecodeEncode` | src/commands/jobs.rs:132-134 | and nothing but canonical text decodes |
| `Base64.EncodedByTable` | src/commands/jobs.rs:132-134 | character k of an encoding is the one that the table of RFC 4648 has for the six bits from bit 6k on, and then padding to a multiple of four |
| `Text.TrimExactly` | src/jobs.rs:195-204 | trimming takes the Unicode white space off both ends, all of it and nothing else |
| `Text.WithoutWhitespaceExactly` | src/commands/jobs.rs:126-136 | and what is dropped from the base64 is white space, wherever it is |
| `JobPolling.SplitPollReadBack` | src/commands/jobs.rs:126-136 | status and every byte are recovered from a status line and base64 wrapped at any width with LF or CRLF |
| `JobPolling.AnswerReadBack` | src/jobs.rs:130-141 | what the poller makes of any answer is the status the guest's two looks gave - at the exit file, then at that file or the process its pid file leads to - and the log from the offset on |
| `JobPolling.LogGrows` | src/jobs.rs:78-81 | the log only grows, and not any more once neither the command nor anything it left behind holds it; a recorded code stays |
| `JobPolling.WholeLog` | src/jobs.rs:125-129 | the log read after an exit code is all there will ever be, in every run that goes on from there, exactly when nothing the command left behind still holds it |
| `JobPolling.Attach` | src/commands/jobs.rs:57-108 | with replies lost at any point: unknown, out of touch, lost, garbled or interrupted exactly when there is a poll as the members below say; what is printed is a prefix of the log counted by the offset; an exit code is the recorded one and comes with the log as of then |
| `JobPolling.EndsOnce` | src/commands/jobs.rs:57-108 | an end of following is its only end: one poll, one outcome |
| `JobPolling.Turn` | src/commands/jobs.rs:65-107 | one turn of the loop: each way it ends exactly when the poll is as the members below say, and where it stands otherwise |
| `JobPolling.InterruptedExactly` | src/commands/jobs.rs:64-70 | following ends interrupted at a poll exactly when it gets to it and a Ctrl-C came by then |
| `JobPolling.UnknownExactly` | src/commands/jobs.rs:77-83 | with no such job exactly when it gets to it and the guest says so |
| `JobPolling.OutOfTouchExactly` | src/commands/jobs.rs:84-91 | out of touch exactly when it gets to it and that is the 120th in a row to go unanswered |
| `JobPolling.JobLostExactly` | src/commands/jobs.rs:99-104 | lost exactly when the first look found no exit file and the second neither the job by its pid file nor another process |
| `JobPolling.CodeExactly` | src/commands/jobs.rs:93-100 | with a code exactly when the first look found the exit file and the second that code in it |
| `JobPolling.FollowingExactly` | src/commands/jobs.rs:57-108 | and is still following exactly when no poll ended it |
| `JobPolling.Follow` | src/commands/jobs.rs:93-106 | one reply: what is new is printed and counted, and the status says whether that was all |
| `JobPolling.Ask` | src/commands/jobs.rs:126-136 | one reply, taken apart into the status and the log from the offset on |
| `JobLooks.LostMayBeWrong` | src/jobs.rs:178-184 | a run and a poll with which `attach` ends with "lost" although the pid file named the job and the job recorded a code |
| `JobLooks.BlankPidIsLost` | src/jobs.rs:91-94 | with a pid file that stays empty a running job is lost to two polls and records its code afterwards |
| `JobLooks.ReusedPidIsRunning` | src/jobs.rs:178-184 | a job gone without a code that is found running, its PID taken over |
| `JobLooks.LostExactly` | src/jobs.rs:178-184 | "lost" is right, in every run that goes on from there, exactly when by the second of the poll's two looks the job was over and had recorded no code; a job not over is called lost only when its pid file does not name it |
| `JobLooks.NeverRecordsExactly` | src/jobs.rs:78-81 | a job will never record a code exactly when it is over without one |
| `JobLooks.LostByName` | src/jobs.rs:178-184 | when the pid file names the job, "lost" is right exactly when no code was recorded by the second look |
| `JobLooks.RunningExactly` | src/jobs.rs:178-184 | "running" is wrong exactly when the job was over without a code; that takes another process answering to what the pid file names |
| `JobLooks.SecondLostIsRight` | src/jobs.rs:178-184 | after a "lost", every later "lost" is right, however things go on, exactly when the job was not running its command any more at the end of that first answer |
| `JobLooks.SecondAskRecovers` | src/jobs.rs:178-184 | after a "lost", every later poll tells a code exactly when that is the one recorded in the end, however things go on, exactly when none was still to come at the end of that first answer |
| `JobPolling.GarbledExactly` | src/commands/jobs.rs:126-136 | `attach` ends on a reply it does not understand exactly when the first poll to end it caught the exit file so |
| `JobPolling.UnreadExactly` | src/jobs.rs:195-204 | a reply is not understood exactly when it caught the exit file created and not yet written, from any offset |
| `JobPolling.GarbledHappens` | src/jobs.rs:178-184 | a run and a poll with which it ends so |
| `Publish.FinishLume` | src/commands/build.rs:500-543 | the sequence of commands goes through exactly the worlds of the specification `Finish` and answers what that answers |
| `Publish.PutNewInPlace` | src/commands/build.rs:513-518 | the same for its publishing part |
| `Publish.PutOldBack` | src/commands/build.rs:519-536 | and its recovery part |
| `Publish.FinishIsSafe` | src/commands/build.rs:500-543 | whatever fails, in full or in half: at every step the old image is complete under `golden` or its backup name, or the new one is complete under `golden`; success means the new one is, a failed restore that the backup is the old one |
| `Publish.PublishesExactly` | src/commands/build.rs:500-543 | the new image is published exactly when every command that this depends on goes well |
| `Publish.EndsExactly` | src/commands/build.rs:513-542 | over an old image, each of the four outcomes exactly when; and the backup is gone after a publication, and after a restore, exactly when its deletion went through, and kept only if neither |
| `Publish.SafeExactlyWhenInUse` | src/commands/build.rs:507-512 | that holds whatever happens exactly when the old image is the one in use |
| `Publish.BuildIsSafe` | src/commands/build.rs:370-405 | a whole build is as safe, with its staging VM and its cleaning up |
| `Publish.BuildLeavesOneInUse` | src/commands/build.rs:370-405 | when commands on `golden` are atomic, the image in use after a build is the old one or the new one |
| `Publish.BuildsNeverGoWithout` | src/commands/build.rs:370-543 | then over any number of builds there is a complete image at every step |
| `Publish.SecondBuildLosesTheImage` | src/commands/build.rs:507-512 | without that two builds can lose it |
| `MediaProofs.RangesAreDisjoint` | src/media.rs:151-155 | two workers never have their hands on overlapping ranges, nor outside the file |
| `MediaProofs.NoByteTwice` | src/media.rs:149-176 | at any moment of any schedule each byte was written at most once, and then with the source's byte |
| `MediaProofs.NoFailureMeansComplete` | src/media.rs:149-181 | all workers back and no failure recorded: every byte was written exactly once, with the source's, and the progress reached the whole |
| `MediaProofs.AFileCanArrive` | src/media.rs:138-181 | there are schedules in which all workers come back without a failure |
| `MediaProofs.ProgressNeverExceeds` | src/media.rs:157-163 | no reported progress exceeds the total |
| `MediaProofs.ClaimsAreBounded` | src/media.rs:138-155 | at most one claim per chunk and one more per worker, and how far the counter can get |
| `MediaProofs.StepHoldings` | src/media.rs:140-171 | each step keeps chunks held by at most one worker and none forgotten without a failure |
| `MediaProofs.StepContents` | src/media.rs:185-219 | each step keeps what is written of each chunk a beginning of the source's, once |
| `Download.WriteAt` | src/media.rs:206-219 | however many bytes each write takes, exactly that stretch of the file becomes the bytes; a failure leaves a beginning of them |
| `Download.FetchRange` | src/media.rs:238-252 | the first answer of at most three |
| `Download.FetchOne` | src/media.rs:185-202 | only a reply of exactly the length asked for is written, and nothing outside its chunk changes |
| `Download.FetchUntil` | src/media.rs:54-117 | whatever goes wrong, what is at the destination is what was there before, or the whole file with its checksum; success exactly when all it depends on goes well; a failed fetch or check leaves no partial file, a failed sizing an empty one, a failed sync or rename the whole |
| `Iso.Image.Entries` | src/iso.rs:136-175 | the record loop ends on every byte string, reads nothing that is not there, and computes the specification |
| `Iso.Image.Contents` | src/iso.rs:177-198 | reads exactly the extent, or refuses one past the end of the image |
| `Iso.Image.Locate` | src/iso.rs:121-134 | the path lookup computes its specification |
| `Iso.Image.Read` | src/iso.rs:92-98 | so does reading a file |
| `Iso.Image.List` | src/iso.rs:84-90 | so does listing a directory |
| `Iso.Primary` | src/iso.rs:201-228 | so does finding the root directory |
| `IsoLayout.DirectoryReadBack` | src/iso.rs:136-175 | records written sector by sector and padded with zeros are all found, in order, minus self and parent and minus version suffixes (section 9.1 of ECMA-119) |
| `IsoLayout.RecordReadBack` | src/iso.rs:151-170 | the fields of a record are found where the standard puts them |
| `IsoTree.FileReadBack` | src/iso.rs:92-134 | any file of any laid-out tree reads back as its bytes, by any path whose parts are the names on the way, each letter A to Z in either case and every other byte as it is, without their versions |
| `IsoTree.DirectoryListBack` | src/iso.rs:84-134 | any directory lists its children, by any such path |
| `IsoTree.SameNameExactly` | src/iso.rs:121-134 | two names are the same to the reader exactly when they are equally long and at each place equal, or letters that differ by 32 with the upper one in 65 to 90 |
| `IsoTree.CutExactly` | src/iso.rs:151-170 | a name with a semicolon and a version is read without |
| `IsoTree.NothingElseIsFound` | src/iso.rs:121-134 | a name no child goes by is missing, and everything under it |
| `IsoTree.FilesAreGoneThrough` | src/iso.rs:121-134 | beyond a file of the tree the next name is looked up in the file's bytes, read as directory records, or their error is the answer |
| `IsoTree.MissingExactly` | src/iso.rs:121-134 | a path outside the tree is missing in every image of that shape, whatever its files hold, exactly when no proper beginning of it leads to a file that is not empty |
| `IsoTree.FoundInAFile` | src/iso.rs:121-134 | an image with a file `A` in which `/A/B` is found although the tree has no such path |
| `IsoTree.PrimaryReadBack` | src/iso.rs:201-228 | the first primary descriptor before any terminator gives the root, if among the first eight |
| `Rfb.StaysInStep` | src/vnc.rs:335-372 | past any colour maps, bells and cut texts exactly the first update is read, and exactly its bytes and theirs consumed (section 7.6 of RFC 6143) |
| `Rfb.RectsReadBack` | src/vnc.rs:381-397 | the rectangles of an update read back as they were written (sections 7.7.1 and 7.8.2 of RFC 6143) |
| `Pixels.Draw` | src/vnc.rs:398-411 | a raw rectangle, clipped: each place it covers shows red, green and blue from bits 16, 8 and 0 of its 32-bit little-endian pixel, the others what they showed; no index leaves the buffer |
| `Pixels.ColourOfValue` | src/vnc.rs:464-467 | the bytes taken for a colour are those of the pixel format asked for |
| `Pixels.PaintedShade` | src/vnc.rs:398-411 | a rectangle painted from any colours row by row shows just those |
| `Vnc.Session.Blank` | src/vnc.rs:376-378 | a black buffer of the current size |
| `Vnc.Session.ReadRectangle` | src/vnc.rs:381-411 | consumes exactly one rectangle and draws it, or takes note of the size |
| `Vnc.Session.ReadUpdate` | src/vnc.rs:338-349 | consumes exactly the rectangles announced; the buffer has the current size through every change of it, and without one shows what they drew on black |
| `Vnc.Session.CaptureOnce` | src/vnc.rs:326-374 | for any server bytes: fails exactly when there is no whole update to come; nothing exactly when that changes the size; otherwise a screen of the size asked for, each place the last raw rectangle over it or black |
| `Vnc.Session.Capture` | src/vnc.rs:317-324 | the same for the first of four updates that changes no size |
| `Vnc.CaptureIsFirstSteady` | src/vnc.rs:317-324 | that update comes after updates that each told another size, at most three |
| `Vnc.FirstSteadyIsCaptured` | src/vnc.rs:317-324 | and whenever there is such an update within the first four it is the one |
| `Vnc.ChangesExactly` | src/vnc.rs:413-418 | an update changes the size exactly when one of its rectangles tells another |
| `Vnc.SizeIsLastTold` | src/vnc.rs:413-418 | and leaves the size that the last such rectangle tells |
| `Vnc.UnchangedSize` | src/vnc.rs:413-418 | an update without a change leaves the size it was asked for |
| `Golden.StampOrder` | src/golden.rs:22-32 | stamps of years with up to four digits sort chronologically, both ways |
| `Golden.DatedNameOrder` | src/image.rs:125-127 | so do the dated names of one key |
| `Golden.OneKeyOnly` | src/golden.rs:191-210 | what is made for a key is claimed by that key and no other, however they overlap |
| `Golden.DatedExactly` | src/golden.rs:191-210 | the dated images of a key are exactly the names of the key, a dash, eight digits, a dash, six digits and `.qcow2` |
| `Golden.Newest` | src/golden.rs:178-189 | the greatest of the dated images of the key, or none |
| `Golden.NewestAfter` | src/golden.rs:172-189 | after any sequence of builds of any mix of keys it is the last one made for the key |
| `Readiness.WaitUntilReachable` | src/ssh.rs:397-472 | ready exactly on a successful probe of a guest seen alive just before; the key refused exactly after an unbroken streak of 60 seconds; a timeout only after all of it; no probe after a look that shows a Ctrl-C, none that ends past the deadline, and no more of them than two-second intervals in the timeout, and two |
| `Readiness.Judge` | src/ssh.rs:429-465 | what an answer means after the answers so far, and since when refusals go on |
| `Readiness.Try` | src/ssh.rs:413-435 | one look and one probe, cut short by the deadline |
| `Keys.Parse` | src/keys.rs:18-44 | the loop computes the specification |
| `Keys.JoinedReadBack` | src/keys.rs:16-17 | known keys joined with dashes, minus written either way, parse back |
| `Keys.ChordReadBack` | src/keys.rs:18-44 | so does every text that writes a chord |
| `Keys.OnlyChordsAreRead` | src/keys.rs:18-44 | and nothing else is read as one |
| `Keys.DashMayBeMissing` | src/keys.rs:18-44 | minus and any key, with one dash in front of it, are read as both keys |
| `Keys.ChordsHaveKeysyms` | src/keys.rs:52-62 | every name of a parsed chord has a keysym |
| `Keys.KeysymReadBack` | src/keys.rs:69-160 | the keysym of every key stands for that key - letters, digits and signs are their characters - so no two share one |
| `Keys.EveryKeyIsThere` | src/keys.rs:69-160 | and every key that a keysym stands for is known |
| `Pointer.TravelArrives` | src/pointer.rs:71-80 | a drag of up to 2^31 steps ends on its target, never turns back on either axis and stays in the box of its ends |
| `Pointer.ArrivesExactly` | src/pointer.rs:71-80 | with 64-bit wrap-around, all drags of so many steps end on their targets exactly up to 2^31 steps |
| `Pointer.StepsAreEven` | src/pointer.rs:71-80 | every point of such a drag is where an even pace would be, to within a pixel |
| `Pointer.ProductsFitExactly` | src/pointer.rs:73-76 | no product leaves 64 bits exactly up to 2^31 steps |
| `Pointer.TabletSpansScreen` | src/commands/gui.rs:272-277 | tablet coordinates are monotone and hit both edges |
| `Pointer.TabletIsEven` | src/commands/gui.rs:272-277 | two pixels are as far apart on the tablet as on the screen, in proportion, to within one place |
| `Pointer.TabletTellsPixelsApart` | src/commands/gui.rs:272-277 | they tell pixels apart exactly on screens up to 32768 |

## Left out

- The lume variants of `run`, `destroy` and `promote`, and `ls --prune`, which reaps without the lock (src/main.rs:69-73): the lock discipline proved here is not theirs.
- Assumed of the VM lifecycle: `run` picks a name never used before, a (PID, start time) pair is never reused, vitro itself does not crash, and listing or removing a directory happens at one moment. `Records.dfy` takes writing and removing apart, for one process.
- LifecycleSafety.RecordOutlivesGuest: and `NoGuestIsLost` except records that a listing could not read while their process lived, because the source removes these.
- A half-removed VM directory is told from a whole one by its record alone in the state machine; `Store.Store.begun` marks what else may be missing.
- Records.Save: the JSON is a parameter, and a directory's files have no directories among them.
- LifecycleSafety.OverlaySurvives: is about a VM whose `run` has committed or is over; a guard that is still armed removes its own directory without the lock.
- Store.Store.List: does not model the order of the names, which nothing here depends on.
- Commands.Run: does not model other processes between its own steps; the state machine does that.
- Promotion.Promote: takes the destination, its staging name and the record as given; finding them is text and configuration.
- What `cd` does beyond receiving its operand (an operand `-` or one starting with a dash, CDPATH), and how a program that was started takes its words apart.
- The shell reader answers nothing for substitutions, parameter braces, here-documents and compound commands other than a subshell; vitro writes none of these.
- PowerShellJobs.StartReadBack: the reader knows the statements that vitro writes; the command is the text after them, whatever PowerShell makes of that. It is told how many statements to expect, because a command may look like one.
- JobPolling.Attach: an ssh that cannot be run, failures to write what was received, and 64-bit wrap-around of the offset. What a job's exit file, log and base64 program give is taken to be read whenever the file is there, and the exit code to be written into its file in one go.
- JobListing.ListReadBack: a command of several lines is listed by its first, as the guest does.
- Publish.FinishIsSafe: what happens to the staging VM before it is shut down (boot, key, provision script) is one yes or no.
- MediaProofs.NoFailureMeansComplete: a server that answers a range request with other bytes of the right length is excluded; the checksum is there for that, and hashing is a parameter of `Download.FetchUntil`.
- MediaProofs.ClaimsAreBounded: the wrap-around of the counter is not modelled, because the bound keeps it below 2^64 for every file nine chunks short of that.
- Download.FetchUntil: a download whose own name ends in `.part` would be its own partial file and is excluded.
- Iso.Image.Entries: names are bytes; those that are not UTF-8, which the source replaces by U+FFFD, are not. An extent sum past 32 bits wraps as it does in a release build.
- IsoTree.MissingExactly: is about images in which no directory shares its place with the beginning of a file; a file on top of a directory has no contents of its own.
- Pointer.ArrivesExactly: products wrap around as they do in a release build; a debug build stops there.
- IsoTree.FileReadBack: files and directories of a single extent, names distinct whatever the letter case; the volume identifier is not read.
- The RFB handshake, its DES response and the events sent to the server; `parse_url` and `percent_decode`.
- Golden.StampOrder: years outside 0 to 9999, whose stamps have another width.
- Readiness.WaitUntilReachable: how an answer is told to be a refused key (text of ssh), and what is printed.
- Keys.Parse: the error texts.
- `State::find` and the other ways of naming a VM, `Deadline::status`, configuration, unattended installs, FAT and tar work, `sync`, `doctor`, tables and the command line: text, defaults, or work done by crates.
