# vee: a verified model

vee runs virtual machines from the command line. This project models the parts of it whose
correctness does not show from reading one function, and proves what they are for.

- **QMP connection owner** (`QmpOwner`, `QmpRuns`, `QmpProgress`, `QmpOwnerObject`). One socket, one reader
  goroutine, a one-slot channel and any number of `Execute` callers, as a step system over every
  interleaving, timeouts and failures included: what no run can do, and what every run can still do. The
  object form updates the owner's fields in place, keeps a history
  that is a run of the system, and composes `Execute` from its pieces under any schedule.
- **Seed image writer** (`Bytes`, `Iso9660`, `Iso9660Proofs`, `IsoWriter`). The ISO 9660 and Joliet
  image as bytes, a reader written from ECMA-119 (2nd edition), sections 7.2.3, 7.3.3, 8.1 to 8.5, 9.1
  and 9.4, and the writer's in-place loops.
- **Remote-command quoting** (`Shells`, `Quoting`). The two printers, and the three parsers that have
  to undo them: POSIX token splitting and quote removal (sections 2.2, 2.3 and 2.6.7 of the POSIX.1-2017
  Shell Command Language), the Microsoft C runtime's argument rules, and cmd.exe's quote tracking.
- **`vee ssh` command line** (`SshArgv`, `SshGrammar`, `SshNormalForm`). Clusters, attached and detached
  values, `--`; the grammar of accepted lines, and when a line rendered from the result parses to it again.
- **The ssh invocation** (`SshInvocation`). The arguments vee hands to ssh, and ssh's reading of them.
- **Boot phase watcher** (`BootWatcher`). An incremental line reader feeding a monotone state machine.
- **Resizable BAR list** (`Text`, `Rebar`, `RebarLines`, `RebarSize`). A text file that has to behave as a finite map,
  and 64-bit power-of-two arithmetic.
- **QEMU disk arguments** (`QemuOptions`, `DiskArgs`, `DiskViews`). The words of the controller and disk
  section, and QEMU's reading of them: commas, doubled commas, names, ids, and what each disk then is.
- **Screendump decoder** (`Ppm`) and **vsock bridge table** (`Vsock`).

Where the source works by changing things step by step, the model is a class or a method with loops,
proved against a function of the old state; the theorems are about that function. Integers are
unbounded except where width matters: sector numbers wrap at 32 bits, byte counts at 64, `strconv`
limits are explicit.

## What does not hold

Seven promises hold only sometimes. Each has a lemma that says exactly when, and one at an input where it
fails.

- A comment in `Execute` calls its drain of `respCh` a guard against stale replies. A call gets its own
  reply if and only if nothing was outstanding when it drained (`OwnReplyExactlyWhenNothingOutstanding`);
  a late reply can still be returned to the next caller (`StaleReplyCanBeReturned`).
- The seed writer reserves one sector per root directory and does not check that names or records fit.
  The image reads back if and only if they do (`ReadingUndoesWriting`). One file reads back from the
  primary tree if and only if its name is shorter than 220 bytes (`LongNameIsLost`): at 220 the record is
  whole but of odd length, beyond it the name is cut. When the records overflow by more than the last one
  the writer panics (`WriteISO`).
- `normalizePCIAddr` is idempotent if and only if the address has a colon (`NormalizeIdempotentWhen`),
  and after an install the file reads as the updated map if and only if the address is one the file can
  carry and every address already there gives its domain (`InstallUpdates`). What is installed for the
  address `1` reads back as an entry for `0000:0000:1` (`ColonlessAddressIsLost`).
- A size is taken as what it says if and only if it is a power of two of at least 1 MiB that fits 64 bits
  (`SizeTakenAsWritten`). `17179869185G` wraps around and is accepted as 1 GiB (`WrappedSizeIsAccepted`).
- The normal form of an accepted `vee ssh` line, its flags followed by `-l`, `-i`, the name and the command,
  reparses if and only if the flags came out split, as they do for every line without `--ssh-flag`
  (`NormalFormReparses`); one that passes a cluster on does not (`SshFlagIsNotReparsed`). A normal form that
  passes every flag on by `--ssh-flag=` reparses for every accepted line (`LongFormReparses`).
- The remote command reaches the guest as one remote word of ssh if and only if it does not start with a dash
  that quoting leaves bare (`BuildSSHArgs`); `vee ssh vm -- -v` makes ssh verbose (`DashCommandIsLost`).
- QEMU reads the disk section as it was meant if and only if nothing a disk writes into it holds a comma
  (`QemuReadsTheSection`); a path such as `p,id=x` makes it meet a device on a drive that nothing defines
  (`CommaPathLosesTheId`).

## Model

| member | source | states |
|---|---|---|
| QmpOwner.StepKeepsInv | internal/qemu/qmp_owner.go:152-223 | every step of QEMU, the reader or a caller keeps mutual exclusion, FIFO order, the slot holding the first reply offered since it was emptied, and what is known of finished calls |
| QmpOwner.RunKeepsInv | internal/qemu/qmp_owner.go:152-223 | so the invariant holds after every run |
| QmpRuns.RepliesReturnedInOrder | internal/qemu/qmp_owner.go:152-223 | in every run, every reply returned answers a command no later than the caller's own and carries what QEMU answered to it, and successive calls are given answers to distinct commands in send order |
| QmpRuns.OwnReplyExactlyWhenNothingOutstanding | internal/qemu/qmp_owner.go:197-223 | a successful call returns the first reply not yet offered at that call's own drain, hence its own reply if and only if every earlier command's reply had been offered by then |
| QmpRuns.PromptRunsReturnOwnReplies | internal/qemu/qmp_owner.go:180-223 | if that is so at every drain, no reply is dropped and every returned reply is the caller's own |
| QmpRuns.RunsWithoutTimeoutsReturnOwnReplies | internal/qemu/qmp_owner.go:180-223 | in particular in every run where no call gives up on a command QEMU may still answer, whatever else fails |
| QmpRuns.StaleReplyCanBeReturned | internal/qemu/qmp_owner.go:200-223 | a run in which, after a timeout, the next caller is given the late reply |
| QmpRuns.EveryLineAccountedFor | internal/qemu/qmp_owner.go:152-193 | events reach the callback once each in stream order; every reply read was returned, drained, dropped or is in the slot, exactly one of these; a caller told the connection is down is told the reader's error |
| QmpRuns.HandOverNeverBlocks | internal/qemu/qmp_owner.go:166-184 | in every reachable state with a line in hand, exactly one of callback, ignore, send and default is open whatever the slot holds, and a line that is no reply leaves the slot as it was |
| QmpProgress.SocketCarriesWhatWasGiven | internal/qemu/qmp_owner.go:197-210 | in every run what was sent is what the callers gave, and what QEMU answered is what the stream holds, in order and unchanged |
| QmpProgress.OwnCommandWasAsked | internal/qemu/qmp_owner.go:197-210 | the command numbered as a replied call's own is the one that caller asked for, at a step of the run |
| QmpProgress.WaitingCallerIsServed | internal/qemu/qmp_owner.go:212-217 | whoever waits when QEMU has answered the first command not offered at its drain can be given that answer, result or error, after steps of the reader alone |
| QmpProgress.WaitingCallerIsTold | internal/qemu/qmp_owner.go:218-219 | whoever waits when the reader has failed can be told its error |
| QmpProgress.FailureReachesTheCaller | internal/qemu/qmp_owner.go:152-161 | the connection can fail with any error between two lines, and that error is what a waiting caller is then told |
| QmpProgress.AnyEventIsDelivered | internal/qemu/qmp_owner.go:164-172 | QEMU can send any event at any time, and while the connection is up the callback can be given it, after all events before it, by steps of the reader alone |
| QmpProgress.NoCallerIsStuck | internal/qemu/qmp_owner.go:197-223 | whoever is inside Execute can always leave it and free the lock by its own steps alone |
| QmpProgress.AnyCallCanBeAnswered | internal/qemu/qmp_owner.go:197-223 | while the connection is up and nobody is inside, any caller can run any command, QEMU can answer it with any result or error, and that answer is what the caller is given |
| QmpRuns.ReaderNeedsNobody | internal/qemu/qmp_owner.go:152-185 | from any point of any run, until it fails, the reader can read the stream to its end by its own steps, no caller having to move |
| QmpOwnerObject.Owner.HistoryIsARun | internal/qemu/qmp_owner.go:31-53 | the object's history is a run that ends in its state, so every theorem about runs is about the object |
| QmpOwnerObject.Owner.DisposeOfLine | internal/qemu/qmp_owner.go:164-184 | classifying a line and calling back, sending or dropping it in place is the one disposal the step system allows, and the history stays a run |
| QmpOwnerObject.Owner.StopReading | internal/qemu/qmp_owner.go:153-161 | the loop's exit records the error before it closes `done` |
| QmpOwnerObject.Owner.DrainStale | internal/qemu/qmp_owner.go:203-206 | the drain leaves the slot empty and the drained reply accounted for |
| QmpOwnerObject.Owner.WriteRequest | internal/qemu/qmp_owner.go:208-210 | a write is sent and numbered, or ends the call whether or not QEMU got the command |
| QmpOwnerObject.Owner.Select | internal/qemu/qmp_owner.go:212-222 | any ready branch may be taken; a reply taken answers the first command not yet offered at the drain, never one after the caller's own, as QEMU answered it; a caller that sees `done` gets the recorded error |
| QmpOwnerObject.Owner.Execute | internal/qemu/qmp_owner.go:197-223 | under any schedule of QEMU and the reader around it, sends the command as given, adds its call and frees the lock; the reply it returns is its own if and only if every earlier reply had been offered at its drain |
| Iso9660Proofs.RecordParses | internal/cloudinit/iso9660.go:354-404 | the reader recovers identifier, extent, length and kind from a directory record, whatever follows it |
| Iso9660Proofs.RecordsParseExactly | internal/cloudinit/iso9660.go:329-349 | records laid in n bytes parse back exactly when every identifier fits its record and all fit n; otherwise the reader rejects them or finds fewer |
| Iso9660Proofs.DescriptorParses | internal/cloudinit/iso9660.go:186-232 | the reader accepts version, blank text fields, set size, sequence number and block size and recovers label, total, root record, path-table size and sectors from either descriptor |
| Iso9660Proofs.DescriptorSetReads | internal/cloudinit/iso9660.go:112-139 | the volume descriptor set, read from sector 16 up to its terminator, is the primary descriptor and the Joliet descriptor and ends in sector 18 |
| Iso9660Proofs.ReadingUndoesWriting | internal/cloudinit/iso9660.go:68-169 | reading either tree of the image gives back every file's name and bytes in order, if and only if the identifiers and records of that tree fit |
| Iso9660Proofs.LongNameIsLost | internal/cloudinit/iso9660.go:354-404 | a single file of any name is written without a panic, and reads back from the primary tree if and only if its name is shorter than 220 bytes |
| Iso9660Proofs.TreesAgree | internal/cloudinit/iso9660.go:110-166 | the i-th records of the two trees name the same extent and length |
| Iso9660Proofs.DescriptorsAgree | internal/cloudinit/iso9660.go:112-160 | both descriptors give, in both byte orders, the image's length in sectors, and both path tables of each tree, of the size given, name that tree's root directory |
| Iso9660Proofs.ExtentsPlaced | internal/cloudinit/iso9660.go:91-108 | extents start at sector 25, follow each other without gap or overlap, and the last ends the image |
| Iso9660Proofs.SectorsAreFewest | internal/cloudinit/iso9660.go:98-103 | a file takes as few sectors as hold it, and at least one |
| Iso9660Proofs.LongIdentIsCut | internal/cloudinit/iso9660.go:377-404 | an identifier of 222 bytes or more leaves its first 222 in a record of 255 bytes, the length byte wrapping around |
| Iso9660Proofs.SectorsNeverWrap | internal/cloudinit/iso9660.go:91-108 | a list whose directory does not make the writer panic cannot overflow 32-bit sector numbers |
| Iso9660Proofs.PanicsWhen | internal/cloudinit/iso9660.go:329-349 | building a directory panics exactly when the records before the last already exceed 2048 bytes |
| Iso9660Proofs.LabelReadsBack | internal/cloudinit/iso9660.go:251-268 | the volume label reads back if and only if it fits its field (32 characters, 16 in Joliet) and does not end in a space |
| IsoWriter.BuildDirRecord | internal/cloudinit/iso9660.go:354-404 | the bytes written in place are the record's encoding, clipping included |
| IsoWriter.WriteStrField | internal/cloudinit/iso9660.go:251-268 | the field is the encoded text, cut or padded to 32 bytes |
| IsoWriter.BuildVolumeDescriptor | internal/cloudinit/iso9660.go:186-247 | the sector filled field by field is the descriptor that DescriptorParses reads |
| IsoWriter.BuildRootPathTable | internal/cloudinit/iso9660.go:297-312 | the sector filled in place is the path table the reader accepts |
| IsoWriter.BuildDirectory | internal/cloudinit/iso9660.go:329-349 | succeeds exactly when no record starts past the sector, and then holds the records in order, cut at 2048 bytes |
| IsoWriter.Place | internal/cloudinit/iso9660.go:91-108 | each file's first sector, and the total, in 32-bit arithmetic |
| IsoWriter.WriteSector | internal/cloudinit/iso9660.go:171-174 | replaces one sector of the header and nothing else |
| IsoWriter.WriteISO | internal/cloudinit/iso9660.go:68-169 | refuses exactly the lists with a file over 64 MiB, naming the first; panics exactly when a directory overflows before its last record; otherwise returns the image |
| Quoting.PosixUndoesQuoting | cmd/ssh.go:271-303 | for every argument list a POSIX shell splits the joined line back into the list, and meets every character outside the safe set quoted or escaped |
| Quoting.CrtUndoesQuoting | cmd/ssh.go:271-364 | for every argument list the C runtime splits the joined line back into the list, empty arguments and trailing backslashes included |
| Quoting.OperatorsShielded | cmd/ssh.go:305-364 | cmd.exe meets every operator of the joined line with quoting on, and has quoting off after every argument, the line up to there being a prefix of the whole |
| Quoting.PassesUntouched | cmd/ssh.go:285-345 | an argument is left as it is exactly when it is not empty and every character is a letter, a digit, one of `@%_-+=:,./` or, for a Windows guest, a backslash |
| Quoting.CmdQuote | cmd/ssh.go:324-364 | the loop over pending backslashes computes the quoted form those theorems are about |
| SshInvocation.BuildSSHArgs | cmd/ssh.go:238-283 | ssh reads the arguments as the session asked for, with the remote command as its one remote word, if and only if that word does not start with a bare dash; and the guest's shell splits that word back into the remote command |
| SshInvocation.SshReadsTheSession | cmd/ssh.go:238-283 | that session: user and host of the destination, the user's last port or else the machine's, the identity, of every `-o` setting the user's first value or else vee's default, and the user's other flags |
| SshInvocation.LineIsAFlagWhen | cmd/ssh.go:271-303 | the remote line looks like an option exactly when its first argument starts with a dash and is left unquoted |
| SshInvocation.DashCommandIsLost | cmd/ssh.go:271-283 | a remote command such as `-v` is read by ssh as an option of its own, and no command is run |
| SshArgv.ParseSSHArgv | cmd/ssh_argv.go:167-265 | the nested index loops compute the word-by-word grammar, errors included |
| SshArgv.CommandIsVerbatim | cmd/ssh_argv.go:173-178 | an accepted line's command is exactly the words after the first `--` that is no flag's argument |
| SshArgv.LongFormsAgree | cmd/ssh_argv.go:191-259 | `--user v`, `--user=v`, `-l v` and `-lv` are one option, and so are the forms of `--identity` and `-i`, wherever they stand |
| SshNormalForm.NormalFormReparses | cmd/ssh_argv.go:167-265 | rendering an accepted line in normal form and parsing again gives the same result if and only if its flags came out split, as they do for every line without `--ssh-flag` |
| SshArgv.SshFlagIsNotReparsed | cmd/ssh_argv.go:191-227 | with `--ssh-flag` that form can fail: a cluster passed on unread comes back as two flags |
| SshArgv.LongFormReparses | cmd/ssh_argv.go:167-265 | the form that passes every flag on by `--ssh-flag=` reparses to the same result for every accepted line |
| SshGrammar.GrammarIsExact | cmd/ssh_argv.go:167-265 | a line is accepted with a result if and only if it is written as items of the grammar that mean it, and refused with an error if and only if its first word that is no item gives that reason |
| SshGrammar.ItemStep | cmd/ssh_argv.go:191-259 | any destination, cluster of boolean letters, value flag after such letters with its value attached or next, or long option is read as what it says, whatever follows |
| SshGrammar.LetterTables | cmd/ssh_argv.go:11-26 | the letters that are boolean and that take a value are those of the two tables |
| SshGrammar.ExpansionKeepsParse | cmd/ssh_argv.go:229-259 | spreading every cluster into one-letter flags, by its letters alone, never changes the result, errors included, and leaves no cluster in an accepted line |
| BootWatcher.FirstMatchWins | internal/boot/phasewatcher.go:269-287 | a line's class is that of the least pattern in the list that matches it, and Unknown if none does |
| BootWatcher.ClassifyLine | internal/boot/phasewatcher.go:269-287 | the loop over the patterns computes that class |
| BootWatcher.LinesAreLines | internal/boot/phasewatcher.go:199-212 | the complete lines and the partial one joined are the stream, each complete line ending in its only newline |
| BootWatcher.Watcher.HandleLine | internal/boot/phasewatcher.go:206-243 | a completed line, with the text kept from earlier polls in front, advances the phase and sends an event as the line step does |
| BootWatcher.Watcher.Poll | internal/boot/phasewatcher.go:183-263 | after any poll, what has been sent is the report of the complete lines of all bytes so far |
| BootWatcher.WatchAll | internal/boot/phasewatcher.go:157-264 | however a log is cut into polls, the same report is sent: each line by the first pattern that matches it, phases above all earlier ones, install stages, cut after the first terminal event |
| BootWatcher.OnLineSeen | internal/boot/phasewatcher.go:218-242 | the watcher's one remembered phase is the highest rank of all lines seen, and its events are their report |
| BootWatcher.PhasesOnlyAdvance | internal/boot/phasewatcher.go:38-57 | in every run, with cancellation, idle timeout and lost events, non-terminal events follow the order BIOS POST, bootloader, kernel, init, cloud-init, install, ready, except repeated Install, and nothing follows a Ready or Failed event |
| BootWatcher.EventsHaveCauses | internal/boot/phasewatcher.go:206-250 | every event of a run was sent at its own step and for its cause: a failure line, a line of the phase reported, or the idle timeout |
| BootWatcher.TimeoutFailsTheBoot | internal/boot/phasewatcher.go:252-255 | as long as the watcher has not returned, the idle timeout ends the boot as failed |
| Rebar.NormalizeIdempotentWhen | internal/gpu/driver.go:195-200 | normalising twice is normalising once if and only if the address has a colon |
| Rebar.ParseRebarConf | internal/gpu/rebar.go:129-151 | the loop computes the parse or the first malformed line's number, and every parsed address is one word with a colon and no comment |
| RebarLines.LinesAreExact | internal/gpu/rebar.go:129-151 | a line is an entry if and only if it is three words between white space, the first no comment and the others numerals of 64 bits, and skipped if and only if it is blank or its first word starts with `#` |
| RebarLines.FilesAreExact | internal/gpu/rebar.go:129-151 | a file is refused exactly with the number of its first malformed line, counted from 1, and otherwise read as the entries of its lines in order |
| RebarLines.LinesOfFile | internal/gpu/rebar.go:129-133 | the lines joined by newlines are the file, and none holds a newline |
| RebarLines.EntryOrder | internal/gpu/rebar.go:155-163 | the order written is that of the addresses as text, then of the BARs |
| Rebar.RenderParses | internal/gpu/rebar.go:129-171 | parsing a rendered list gives the list back if and only if every address is one word, no comment and has two colons |
| Rebar.SortedSorts | internal/gpu/rebar.go:155-163 | the written order is a permutation of the entries in ascending order of address, then BAR |
| Rebar.RenderSortsAndParses | internal/gpu/rebar.go:129-171 | parsing what is written yields the sorted list, under the same exact condition |
| Rebar.RenderRebarConf | internal/gpu/rebar.go:155-171 | the loop writes the header and one line per entry of the sorted list |
| Rebar.MergeUpdates | internal/gpu/rebar.go:175-184 | merging is update of the map from (address, BAR) to exponent |
| Rebar.RemoveDeletes | internal/gpu/rebar.go:188-196 | removing is deletion from that map, and reports whether the key was there |
| Rebar.KeysUnique | internal/gpu/rebar.go:175-196 | a list that stands for a map holds each key once |
| Rebar.InstallUpdates | cmd/gpu_rebar.go:129-178 | after an install the written file reads as the updated map if and only if the address is one word with a colon and no comment and every address in the file before gave its domain |
| Rebar.ColonlessAddressIsLost | internal/gpu/driver.go:195-200 | the address `1` gains the domain twice when normalised twice, so a file with it installed reads as one entry for `0000:0000:1` |
| Rebar.UninstallDeletes | cmd/gpu_rebar.go:180-208 | after an uninstall the file reads as the map without the key if and only if the key was not there or every address that stays gives its domain; the file goes exactly with its last entry, and stays as it was if the key was not there |
| Rebar.FileIsAMap | cmd/gpu_rebar.go:129-219 | any sequence of installs and uninstalls, rendered and parsed between steps, is the same sequence of map updates and deletions |
| Rebar.EntryList.MergeRebarEntry | internal/gpu/rebar.go:175-184 | the in-place edit is the merge MergeUpdates is about |
| Rebar.EntryList.RemoveRebarEntry | internal/gpu/rebar.go:188-196 | the in-place edit is the removal RemoveDeletes is about; found exactly when some entry has the key |
| RebarSize.PowerOfTwoTest | internal/gpu/rebar.go:52-65 | b & (b-1) == 0 holds exactly when b is the power of two its trailing zeros count |
| RebarSize.SizeRoundTrip | internal/gpu/rebar.go:42-65 | a size is accepted exactly when its byte count is a power of two of at least 2^20; the exponent lies in 0..43 and SizeBytes gives the count back |
| RebarSize.CountReadWhenItFits | internal/gpu/preflight.go:159-178 | any numeral, alone or with a unit, is read as the count it says if and only if that fits 64 bits |
| RebarSize.SizeTakenAsWritten | internal/gpu/rebar.go:42-65 | a size written as a numeral, alone or with a unit, is accepted with SizeBytes equal to what it says if and only if that is a power of two of at least 2^20 below 2^64 |
| RebarSize.WrappedSizeIsAccepted | internal/gpu/rebar.go:52-65 | the text `17179869185G` wraps around and is accepted as exponent 10, which is 1 GiB |
| RebarSize.SizesDistinct | internal/gpu/rebar.go:42-47 | exponents 0..43 name distinct sizes from 1 MiB on that fit 64 bits |
| Ppm.PixelAt | internal/qemu/screendump.go:52-72 | pixel i is triple i of the raster, each sample scaled and clamped, alpha 255 |
| Ppm.ScaleRoundsDown | internal/qemu/screendump.go:99-105 | a sample up to maxval becomes the floor of v*255/maxval, and one from maxval on becomes 255 |
| Ppm.ScaleKeepsOrder | internal/qemu/screendump.go:99-105 | a brighter sample never comes out darker |
| Ppm.ValidFilesDecode | internal/qemu/screendump.go:17-72 | every P6 file, with any header white space and comments, decodes to exactly its raster's pixels when dimensions, maxval and raster length are supported, and otherwise is refused for the first that is not |
| Ppm.OnlyFilesDecode | internal/qemu/screendump.go:17-134 | conversely whatever decodes is such a file |
| Ppm.DecodePPM | internal/qemu/screendump.go:17-72 | terminates, stays in bounds and computes the decoding on every byte string |
| Ppm.Parser.NextNumber | internal/qemu/screendump.go:113-134 | skips white space and comments in place and reads one number, leaving the position after it |
| Ppm.FillPixels | internal/qemu/screendump.go:52-72 | the row-by-row loop fills the buffer with the raster's pixels |
| Vsock.TablesMatchListeners | cmd/vee-vz-helper/vsock.go:56-141 | across any operations, failures included, the open listeners are exactly those of the two maps, each held by one port of one map, every bridge has its socket file, and closing leaves none open |
| Vsock.ListenersSurvive | cmd/vee-vz-helper/vsock.go:56-157 | until the table is closed, a forward keeps its listener open and has the last absolute target asked for it, and a bridge keeps its listener |
| Vsock.AnsweredBridgeStaysServed | cmd/vee-vz-helper/vsock.go:56-78 | in any run, a bridge path once answered is that port's socket, with its listener open, until the table is closed |
| Vsock.AcceptedForwardStaysServed | cmd/vee-vz-helper/vsock.go:102-126 | in any run, an accepted forward keeps its listener open until the table is closed, with the last absolute target asked for |
| Vsock.ConnectAnswers | cmd/vee-vz-helper/vsock.go:56-78 | in any run a connect is answered with the port's path exactly when vsock is enabled, the port is not 0 and the listen succeeds or one has since the last close; otherwise with the error that says which |
| Vsock.ListenAnswers | cmd/vee-vz-helper/vsock.go:102-126 | and so for a forward, whose target has to be absolute |
| Vsock.SocketFilesFollow | cmd/vee-vz-helper/vsock.go:56-141 | a bridge's socket file is there exactly as the operations so far made and removed it |
| Vsock.PathsDistinct | internal/vzhelper/vzhelper.go:335-337 | distinct ports have distinct bridge sockets |
| Vsock.VsockState.ConnectBridge | cmd/vee-vz-helper/vsock.go:56-78 | answers an existing bridge's path, or removes the stale socket and listens, exactly as the step says |
| Vsock.VsockState.ListenForward | cmd/vee-vz-helper/vsock.go:102-157 | a repeated forward leaves the maps and the listeners alone and retargets the shared forward object in place |
| Vsock.VsockState.CloseAll | cmd/vee-vz-helper/vsock.go:129-141 | the two loops close every listener, remove every bridge socket and empty the maps |
| DiskArgs.SectionIsWellDefined | internal/qemu/machine.go:425-447 | in the section as meant, for every disk list, each drive, iothread and controller id comes after its definition, none is defined twice, and no two disks are on one AHCI port |
| DiskArgs.QemuReadsTheSection | internal/qemu/machine.go:425-447 | QEMU reads the section's words as the section if and only if nothing a disk writes holds a comma, and then meets every id defined before use, none twice, and every AHCI port free |
| DiskViews.EveryDiskIsAsAsked | internal/qemu/disk.go:379-557 | and then each disk, looked up by its id in what QEMU read, has the file, format, modes and device model its interface calls for, with its serial and boot index, and the controller or iothread it is attached through is there |
| DiskViews.CdromIsFixed | internal/qemu/disk.go:379-395 | a cdrom on USB or a plain drive is read-only and unformatted whatever was asked; another medium is as asked |
| DiskArgs.PlainDisksAreFree | internal/qemu/disk.go:397-557 | the fields of a disk that decide this, branch by branch |
| DiskArgs.CommaPathLosesTheId | internal/qemu/disk.go:489-533 | of a passthrough disk at a path `p,id=x` QEMU reads a drive called x and then a device on a drive that nothing defines |
| QemuOptions.DefinedBeforeUse | internal/qemu/machine.go:425-447 | the same by positions: what an option refers to is defined by an earlier one |
| QemuOptions.DefinedOnce | internal/qemu/machine.go:425-447 | no two options of such a section define the same id |
| DiskArgs.DiskShape | internal/qemu/disk.go:397-557 | every branch defines only the disk's own drive and iothread ids, in that order before the device, and needs only its interface's controller |
| QemuOptions.OptionReadsBack | internal/qemu/disk.go:397-557 | QEMU's reading of a flag and its joined text, doubled commas included, is the option that was written if and only if no value holds a comma |
| QemuOptions.WordsReadBack | internal/qemu/disk.go:397-557 | and so for a whole list of options |
| DiskArgs.Disk.FixOptions | internal/qemu/disk.go:379-395 | a cdrom becomes read-only, unformatted and uncached in place |
| DiskArgs.Disk.Args | internal/qemu/disk.go:397-557 | fixes the disk's options in place; each branch's appended and joined lists are the words of the options that DiskShape and QemuReadsTheSection are about |
| DiskArgs.MachineArgs | internal/qemu/machine.go:425-447 | the loops number the disks in place and emit words that QEMU reads as the section exactly when the disks are plain, then well defined with free ports, even when the list names one disk twice |

## Left out

- QMP dialing, the capabilities handshake, deadlines and JSON: lines are already classified as event, reply or junk, and the handshake is over.
- `QMPClient.execute`: one line per command with no event demultiplexing.
- Go's memory model: a step of the owner is atomic where the source holds a lock or does one channel operation.
- ISO names and labels beyond ASCII (UTF-16 surrogates), recording dates, and reading the two files from disk.
- The Joliet escape sequence is written in ascending field order rather than before the other fields; the sector is the same.
- POSIX reserved words, `NAME=value` prefixes, here-documents, `%NAME%` expansion and the C runtime's special rule for argv[0].
- Strings are sequences of characters where Go has bytes; a multi-byte character counts as one.
- SshReadsTheSession: the destination is taken to be no `ssh://` address, and the last `-p` counts, as the source says of ssh.
- Shell completion and the parent command's flag wiring in `cmd/ssh_argv.go`.
- The watcher's regular expressions (any ordered list of predicates), event time stamps, file polling and the idle timeout's clock (a step that may happen at any time).
- Rebar.SortedSorts: entries with equal keys come out in one particular order, where `sort.Slice` leaves it unspecified; lists that stand for a map have none.
- Slice aliasing between a caller's list and the merged or shortened one.
- FileIsAMap: the hardware checks, the systemd unit and the permission errors of the rebar commands are left out, so a command here is its effect on the file.
- `UniformImage` and the image type behind the decoder's pixel buffer.
- The goroutines that serve vsock connections and copy bytes; whether a listen succeeds is a parameter.
- `filepath.Abs` and `filepath.Join`: disk paths are taken as already absolute, and a bridge path is the directory, a slash and the file name.
- QEMU's reading of a switch named `no...` as off, and of a property given twice: here the first counts, as it does for an id.
- The rest of the QEMU command line, and the number of ports an AHCI controller has.
- Error message texts; an error is its kind and the data it names.
- VM lifecycle, templates, downloads, GPU binding, systemd and launchd units, the terminal interface and the MCP tools: input and output, or settled by reading one branch.
