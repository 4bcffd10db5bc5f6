# waitlock: the lock protocol and its parts, verified

waitlock hands out mutexes and semaphores to shell scripts through files. Every process that wants a
lock named by a descriptor scans a shared directory of `<descriptor>.slot<k>.lock` files, removes the
records of dead processes, creates the first free slot exclusively, writes a checksummed record into it
and later unlinks its own path. This project models that protocol and the code around it and proves what
it guarantees, and exactly when.

| file | what it holds |
|---|---|
| `LockProtocol.dfy` | any number of acquirers, releasers, `check_lock` and `done_lock` as a step system, in which reading an entry, `process_exists`, exclusive create, write and unlink are steps of their own; the invariant, mutual exclusion, exact conditions for safe steps and safe runs |
| `LockProgress.dfy` | what a process achieves when it runs alone: progress, least free slot, what an undisturbed `check_lock` or `done_lock` removes |
| `LockRaces.dfy` | concrete runs that lose exclusion when one of the two granularity assumptions is dropped, in `acquire_lock`, `check_lock` and `done_lock` |
| `LockDirectory.dfy` | `acquire_lock`, `release_lock`, `check_lock`, `done_lock` as methods of a class over the directory's bytes |
| `LockRefinement.dfy` | the methods' pass and the protocol's undisturbed pass are the same thing; the same for `check_lock` and `done_lock`; every step of the protocol on a directory of bytes, and mutual exclusion over those bytes |
| `UnwrittenFile.dfy` | an empty lock file never counts as a lock |
| `ExecMode.dfy`, `ExecRaces.dfy`, `ExecCommand.dfy` | `exec_with_lock` and `signal_handler`: composed with the protocol, the losing race, and as methods |
| `Crc32.dfy` | the table-driven CRC-32 against the bit-serial register of section 8 of RFC 1952, and what it detects |
| `LockRecord.dfy`, `TextFormat.dfy`, `LockFile.dfy` | the binary record, the text record, the reader of either |
| `Names.dfy`, `CText.dfy` | file names and paths; the C text routines they rest on |
| `Backoff.dfy` | the retry loop's timing |
| `Basics.dfy` | what several modules share |
| `Coordinator.dfy` | `ProcessCoordinator` as a class, and parent and child over two pipes as a system |

## Assumptions

- From reading a directory entry to the unlink, if it comes to that, nobody else takes a step
  (`LockProtocol.AtomicInspection`). This holds for all three operations that unlink what they read.
  `LockRaces.SplitInspectionLosesExclusion`, `SplitCheckLosesExclusion` and `SplitDoneLosesExclusion` are
  runs that lose exclusion without it. Opening and reading one entry is one step.
- A file without a valid record is removed only while nobody is between create and write, or clean-up, on
  it (`LockProtocol.CleansAbandoned`); `LockRaces.CleanBeforeWriteLosesExclusion` is the run that needs it.
- Neither is needed for `LockProtocol.RunSafetyIsExact` and `UnlinkSafetyIsExact`, which say for every run
  and every unlink exactly when it is safe.
- A record is written by one `write()`, and what a short write leaves never passes the checksum. For the
  empty file between create and write this is proved (`UnwrittenFile.EmptyFileIsInvalid`), not assumed.
- Process numbers are not reused, and a process acquires only when it holds nothing.
- The limit a process records equals the limit it asked for when it is below 65536
  (`LockDirectory.RecordedLimitIsExact` shows this is exact).
- In exec mode, for the bound on running commands: no forced kill of a parent, no signal between `fork`
  and the assignment of `child_pid`, no `waitpid` failure other than EINTR. `ExecMode.CommandSafetyIsExact`
  shows that these three are exactly the steps that separate a command from its lock.

## Where the code and its documentation differ

The model follows the code.

- A timeout of exactly 0 always returns the timeout code, without a single scan; the default, documented
  as waiting without limit, is negative and returns busy as soon as the lock is full.
- The preferred slot is never consulted when a slot is claimed; the least free slot is taken.
- The documented "release the lock and exit" on SIGTERM holds in exec mode only. Otherwise the handler
  closes the descriptor and raises the default action; the lock file stays until a scan reaps it.
- `check_lock` never finds a lock whose descriptor contains a dot (`Names.OwnFileIsChecked`, `LockDirectory.DottedDescriptorIsNeverBusy`).
- A scan counts every file whose name merely begins with the descriptor, so the locks of `job2` count
  against `job` although `check_lock` reports `job` as free (`LockDirectory.Job2CountsAgainstJob`;
  `LiveLockMattersExactly` and `CheckAgreesWithAcquire` say exactly when).
- `--check app` and `--done app` also look at the locks of `app.db` (`Names.CheckSeesExactly`,
  `Names.DoneSeesExactly`), and `--done` never finds a lock whose descriptor begins with a dot.
- A lock file in the documented text form has no checksum field and counts only if the CRC-32 of its
  record happens to be zero (`LockDirectory.TextFileCountsExactly`).
- `pc_receive` asked for zero bytes reports a closed pipe (`Coordinator.EndMeansAllTaken`), and
  `pc_send` answers -1 to a short write whose bytes the peer will still read
  (`Coordinator.AcknowledgedIsWrittenExactly`).

## Model

| member | source | states |
|---|---|---|
| LockProtocol.MutualExclusion | src/lock/lock.c:154-229 | In every state reached by any number of interleaved acquirers, releasers, check_lock and done_lock calls and crashes, no two live holders of a descriptor share a slot, and they never outnumber the largest limit in use |
| LockProtocol.StepKeepsInv | src/lock/lock.c:175-229 | Every step that does not unlink a live process's file keeps the ownership invariant |
| LockProtocol.StepSafetyIsExact | src/lock/lock.c:183-191 | A step keeps the invariant if and only if it is no unlink of a file, read earlier, that is a live process's file at that moment |
| LockProtocol.RunSafetyIsExact | src/lock/lock.c:175-781 | Without any granularity assumption, with every read, judgement and unlink of acquire_lock, check_lock and done_lock apart, a run keeps the invariant throughout if and only if no unlink ever hits a live process's file |
| LockProtocol.UnlinkSafetyIsExact | src/lock/lock.c:184-189 | Whoever is about to unlink and whatever it read before, the unlink is safe if and only if no live process answers for the file at that moment |
| LockProtocol.CleanSafetyIsExact | src/lock/lock.c:426-434 | While the file still holds no valid record, its removal is safe if and only if no live process is between create and write, or clean-up, on it |
| LockProtocol.DisciplinedStep | src/lock/lock.c:184-189 | With atomic inspections, what is judged or condemned is still what was read, and the invariant is kept |
| LockProtocol.DisciplinedRunKeepsInv | src/lock/lock.c:154-229 | The invariant holds after every disciplined run from any state that has it |
| LockProtocol.InvIsExclusive | src/lock/lock.c:208 | The invariant implies that live holders of one descriptor have different slots |
| LockProtocol.HoldersAreBounded | src/lock/lock.c:198-206 | Live holders of a descriptor number at most the largest limit any of them asked for |
| LockProtocol.ReturnContract | src/lock/lock.c:198-257 | Success means that the caller's own complete record is in the directory and its timeout was not zero; every other return leaves no file of the caller |
| LockProtocol.ReleaseRemovesOwnFile | src/lock/lock.c:341-394 | A release removes the caller's own file and changes no other |
| LockProtocol.HolderKeepsLock | src/lock/lock.c:175-196 | Whatever others do, a holder's file stays in the directory, unchanged, until the holder releases or dies |
| LockProtocol.OrphanIsPermanent | src/lock/lock.c:185-191 | A file whose maker died between create and write survives every run of acquirers |
| LockProtocol.WalksGoOn | src/lock/lock.c:156-199 | What every process can do next while it walks the directory, and where that takes it |
| LockProtocol.ClaimsGoOn | src/lock/lock.c:204-221 | The same while it claims a slot, with failing creates and short writes |
| LockProtocol.OthersGoOn | src/lock/lock.c:235-337 | The same while it waits, holds, or is outside |
| LockProtocol.NobodyIsStuck | src/lock/lock.c:154-337 | From every place a live process has a step of its own |
| LockProgress.ScanAlone | src/lock/lock.c:179-194 | An uninterrupted walk of any of the three operations removes exactly what that operation condemns, and acquire_lock counts exactly the live records, in any order of entries |
| LockProgress.SweepAlone | src/lock/lock.c:409-450 | An undisturbed check_lock removes exactly the entries without a valid record, done_lock also the dead ones, and nothing else changes |
| LockProgress.ClaimAlone | src/lock/lock.c:204-221 | An undisturbed claim loop takes the least slot whose name is absent, or gives up when there is none |
| LockProgress.PassAlone | src/lock/lock.c:175-229 | The whole outcome of an undisturbed pass: slot, directory, process state |
| LockProgress.LonePassSucceedsExactly | src/lock/lock.c:198-228 | A lone pass ends holding a slot if and only if live records leave room and some slot name below the limit is absent after reaping |
| LockProgress.SoloProgress | src/lock/lock.c:176-228 | With fewer live or unsigned matching files than slots, a lone pass consisting of the process's own steps succeeds with the least absent slot |
| LockRaces.SplitInspectionLosesExclusion | src/lock/lock.c:184-189 | A run of acquirers alone in which a pause between read and unlink gives two live holders one slot |
| LockRaces.CleanBeforeWriteLosesExclusion | src/lock/lock.c:426-434 | A run with atomic inspections throughout in which check_lock works between create and write and two live holders share a slot |
| LockRaces.SplitCheckLosesExclusion | src/lock/lock.c:426-434 | A run in which check_lock reads an empty file, its maker writes and holds, and check_lock then unlinks it, with nobody between create and write at that moment: two live holders of one slot |
| LockRaces.SplitDoneLosesExclusion | src/lock/lock.c:717-750 | A run in which done_lock reads a stale record, an acquirer takes the slot, and done_lock then unlinks the new holder's file: two live holders of one slot |
| LockDirectory.Locker.Inspect | src/lock/lock.c:180-193 | One entry: counted if and only if it matches, holds a valid record and its positive pid is live; unlinked if and only if it matches, is valid and the process is gone |
| LockDirectory.Locker.Scan | src/lock/lock.c:175-196 | The count and the remaining directory after the loop, independent of the order of entries |
| LockDirectory.Locker.Claim | src/lock/lock.c:202-221 | The least slot that is absent and takes a complete write; nothing of a failed write stays |
| LockDirectory.Locker.Pass | src/lock/lock.c:175-229 | One pass: outcome and directory |
| LockDirectory.Locker.AcquireLock | src/lock/lock.c:95-338 | When each code is returned, as an if and only if, over any number of passes and any interference between them; every pass begins before the deadline, so no lock is taken after it; on success the recorded path holds a valid record with everything known about the caller; with punctual sleeps a timeout is less than 1 ms late; at most T/1000 ms + 13 passes without an answer; recorded state changes on success only |
| LockDirectory.Locker.ReleaseLock | src/lock/lock.c:341-394 | Descriptor closed, recorded file unlinked, both forgotten |
| LockDirectory.Locker.ReleaseTwice | src/lock/lock.c:341-394 | Releasing twice is releasing once |
| LockDirectory.Locker.AcquireAndRelease | src/lock/lock.c:95-394 | A successful acquire followed by a release leaves the reaped directory of the last pass |
| LockDirectory.ReleaseUndoesPass | src/lock/lock.c:207-227 | Unlinking the claimed name takes the directory back to the reaped one: a claim never overwrites |
| LockDirectory.OwnLockIsValid | src/lock/lock.c:210-213 | The file a pass writes is, to every later reader, a valid record naming its writer and limit |
| LockDirectory.LockRecordsHolder | src/lock/lock.c:127-147 | To every later reader the written file is valid and names the caller's pid, ppid, uid, host, descriptor, limit, lock type and command |
| LockDirectory.RecordedLimitIsExact | src/lock/lock.c:127-147 | The recorded limit is the limit asked for if and only if it is below 65536 |
| LockDirectory.PreparedRoundTripIsExact | src/lock/lock.c:127-147 | The record acquire_lock prepares survives the text form if and only if none of its strings, as kept, holds a newline and the command line has at most 1015 characters |
| LockDirectory.Locker.CheckEntry | src/lock/lock.c:415-447 | One entry of check_lock: counted if and only if it matches, is valid and live; removed if and only if it matches, can be read and holds no valid record |
| LockDirectory.Locker.CheckLock | src/lock/lock.c:397-464 | Busy if and only if live records reach the limit of the last live record read; exactly the readable corrupt matching files are gone |
| LockDirectory.CheckAccounts | src/lock/lock.c:414-448 | File by file, exactly which files check_lock leaves, all untouched, and which it counts |
| LockDirectory.LastLimitIsLast | src/lock/lock.c:427-430 | The limit check_lock goes by is that of the last live record it reads, and one if it reads none |
| LockDirectory.ImageCountsExactly | src/lock/lock.c:184-187 | A file that is a binary image counts, for its own pid and limit, if and only if its checksum is right |
| LockDirectory.WrittenImageCountsExactly | src/lock/lock.c:184-187 | The same for any record that was written, whatever follows it in the file |
| LockDirectory.OnlyReadableCounts | src/lock/lock.c:184-189 | A file that cannot be read never counts, a record without a positive pid is never live, and a valid record is either live or dead |
| LockDirectory.DamagedLockIsNoLock | src/lock/lock.c:427-434 | After a burst of up to 32 bits anywhere in a valid record that leaves the magic, check_lock removes the file if and only if it matches and never counts it, and a scan neither counts nor reaps it |
| LockDirectory.CheckSeesDottedNames | src/lock/lock.c:416-419 | check_lock looks at an entry if and only if a scan does, the name goes on from the descriptor with a dot, and the descriptor has no dot itself |
| LockDirectory.DottedDescriptorIsNeverBusy | src/lock/lock.c:416-419 | For a descriptor with a dot check_lock finds nothing and removes nothing |
| LockDirectory.CheckAgreesWithAcquire | src/lock/lock.c:397-464 | For every directory, descriptor and common limit: check_lock's answer is what an undisturbed acquire would do next if and only if check_lock sees the limit reached, or all live locks a scan counts leave room and some slot is not blocked |
| LockDirectory.OnlyHiddenLocksMislead | src/lock/lock.c:397-464 | With readable files and a descriptor without dots the two disagree if and only if live locks that only the scan counts use up the room that check_lock sees, whatever corrupt and stale files there are |
| LockDirectory.ForeignFilesAreIgnored | src/lock/lock.c:180 | Files whose names do not begin with the descriptor make no difference to a pass |
| LockDirectory.LiveLockMattersExactly | src/lock/lock.c:180 | A live lock of any descriptor makes a difference to acquirers of d, for some limit, if and only if its file name begins with d |
| LockDirectory.Job2CountsAgainstJob | src/lock/lock.c:180-187 | The concrete directory: one live lock of job2, for which check_lock reports job as free and acquire_lock as full |
| LockDirectory.Locker.DoneEntry | src/lock/lock.c:704-761 | One entry of done_lock: found, released and kept, each as an if and only if on the record and the system's three answers |
| LockDirectory.Locker.DoneLock | src/lock/lock.c:675-782 | A file stays, untouched, if and only if it does not match, or is a valid record whose process is there and took the signal or is still there; not found if and only if no matching record is valid; success if and only if some valid one's process is gone or took the signal |
| LockDirectory.DoneAccounts | src/lock/lock.c:702-781 | File by file, exactly which files done_lock leaves, which records it finds and which it releases; released never exceeds found |
| LockDirectory.TextFileCountsExactly | src/lock/lock.c:650-672 | Any file that is no binary image counts as a lock if and only if the CRC-32 of the record it is read as is zero |
| LockRefinement.PassRefinesProtocol | src/lock/lock.c:175-229 | Run alone, the protocol's steps end where the sequential pass ends, and leave the directory whose bytes the pass leaves |
| LockRefinement.CheckRefinesProtocol | src/lock/lock.c:409-450 | The directory that check_lock leaves is what the protocol's undisturbed check leaves |
| LockRefinement.DoneRefinesProtocol | src/lock/lock.c:692-764 | The directory that done_lock leaves, with answers that do not change meanwhile, is what the protocol's undisturbed done leaves: the files of live holders stay |
| LockRefinement.ByteStepIsProtocolStep | src/lock/lock.c:175-229 | Every step of every process on a directory of bytes is the protocol's step on what the processes see in those bytes |
| LockRefinement.ProtocolStepIsByteStep | src/lock/lock.c:175-229 | Every step the protocol allows is possible on the bytes |
| LockRefinement.BytesExclude | src/lock/lock.c:154-229 | Over every interleaving on bytes: no two live holders share a slot, they number at most the limit, and each one's file holds a valid record of that holder, descriptor and limit |
| LockRefinement.CreateShows | src/lock/lock.c:208 | The bytes after an exclusive create are what the protocol's create step says |
| LockRefinement.WriteShows | src/lock/lock.c:210-213 | The bytes after the write are what the protocol's write step says |
| UnwrittenFile.EmptyFileIsInvalid | src/lock/lock.c:208-213 | A file that was created and not written yet is no lock to any reader |
| UnwrittenFile.BlankChecksum | src/checksum/checksum.c:56-76 | The CRC-32 of the magic followed by 4644 zero bytes is not zero |
| UnwrittenFile.ShiftsArePowers | src/checksum/checksum.c:61-65 | Shifting a register any number of times is multiplying it by a power, so that long runs of zero bytes can be computed by squaring |
| ExecMode.CommandSafetyIsExact | src/process/process.c:138-214 | A step keeps every running command under its parent's lock if and only if it is not one of three: a forced kill, a signal before child_pid is set, a waitpid failure |
| ExecMode.CommandRunIsExact | src/process/process.c:138-214 | A run keeps every command under its lock throughout if and only if none of its steps is one of those three |
| ExecMode.XRunKeepsInv | src/process/process.c:138-214 | Every run without those steps keeps all commands under their locks |
| ExecMode.CommandsRunUntilTheyEnd | src/process/process.c:144-188 | The running commands change by a fork and by a command's own end only, whatever happens to their parents |
| ExecMode.CommandsAreBounded | src/process/process.c:138-214 | At most as many commands of a descriptor run at once as the largest limit in use, and the lock file is there from acquisition until the command is collected |
| ExecRaces.SignalInWindowRunsTwoCommands | src/signal/signal.c:11-38 | A run with limit one in which a signal between fork and the assignment of child_pid leaves two commands running |
| ExecCommand.Runner.SignalHandler | src/signal/signal.c:11-39 | With a child the signal is only forwarded; without one the descriptor is closed and cleanup marked; the lock file stays either way |
| ExecCommand.Runner.AwaitChild | src/process/process.c:188-209 | Every interruption forwards its signal and presses a live command to end; nothing is released |
| ExecCommand.PressingIsExact | src/process/process.c:197-208 | An interruption forwards its signal, sends SIGTERM if and only if the command is alive, and SIGKILL if and only if it is still alive after that |
| ExecCommand.SignalsAreForwarded | src/signal/signal.c:13-20 | Every signal that reaches the waiting parent is forwarded to the command, once and in order |
| ExecCommand.Runner.ExecWithLock | src/process/process.c:132-241 | Once acquired, every path gives the lock back exactly once and last, after the command was collected unless fork or waitpid failed; the command's status, 128 plus its signal, or 4; without the lock 1, 2 or 4 under acquire_lock's conditions; the exported slot is the held one |
| ExecCommand.ExecIsDisciplinedExactly | src/process/process.c:144-214 | However the call's steps are interleaved with those of other processes, it ends with its lock given back, and every command stays under its lock throughout if and only if this call's waitpid does not fail |
| ExecCommand.ExecHasRuns | src/process/process.c:144-214 | Such a run exists for every sequence of answers of waitpid |
| Crc32.CalculateCrc32 | src/checksum/checksum.c:56-66 | The table-driven loop computes the bit-serial CRC-32 of every byte sequence |
| Crc32.TableIsReduction | src/checksum/checksum.c:9-53 | Every table entry is the eight-step bitwise reduction of its index |
| Crc32.TableStepIsByteStep | src/checksum/checksum.c:62 | One turn of the loop is eight shifts of the reference register |
| Crc32.ChecksumIsReference | src/checksum/checksum.c:56-66 | The byte-wise form equals the bit-by-bit form |
| Crc32.ByteStepIsBijective | src/checksum/checksum.c:61-63 | For every byte the step is a bijection on the 32-bit state |
| Crc32.AbsorbIsInjective | src/checksum/checksum.c:61-63 | Different states stay different over any common data |
| Crc32.WindowIsDetected | src/checksum/checksum.c:56-66 | Inputs that differ only inside four consecutive bytes have different checksums |
| Crc32.BurstIsDetected | src/checksum/checksum.c:56-66 | Inputs that differ only inside 32 consecutive bits, at any bit offset, have different checksums |
| Crc32.BurstLimitIsSharp | src/checksum/checksum.c:56-66 | A 33-bit burst equal to the polynomial is undetected anywhere in any message |
| Crc32.ChecksumIsAffine | src/checksum/checksum.c:61-65 | crc(x xor y) is crc(x) xor crc(y) xor crc(zeros) |
| LockRecord.ParseOfImage | src/waitlock.h:106-122 | Writing the struct and reading it back restores every field |
| LockRecord.ImageOfParse | src/waitlock.h:106-122 | Reading any full image and writing it again gives the same bytes |
| LockRecord.FieldsSitAtOffsets | src/waitlock.h:106-122 | Where every field of a written record is, byte by byte |
| LockRecord.LittleEndianByte | src/waitlock.h:106-122 | Each byte of a stored number, the lowest first |
| LockRecord.CalculateLockChecksum | src/checksum/checksum.c:69-77 | The checksum is the CRC-32 of all bytes before the checksum field |
| LockRecord.ValidateLockChecksum | src/checksum/checksum.c:80-86 | Validation compares the field with that checksum |
| LockRecord.StampedIsValid | src/lock/lock.c:212 | A record stamped before writing validates |
| LockRecord.ValidCodewordsShareResidue | src/checksum/checksum.c:69-86 | Any two valid records, checksum field included, leave the register in the same state |
| LockRecord.BurstInvalidates | src/checksum/checksum.c:69-86 | A valid record becomes invalid under any burst of up to 32 bits, in the payload, in the checksum, or across both |
| LockRecord.WindowValidityIsExact | src/checksum/checksum.c:69-86 | After a change inside four consecutive bytes a valid image is still valid if and only if only the trailing padding changed |
| TextFormat.ReadText | src/lock/lock.c:588-647 | The reader's loop over 1023-byte chunks computes the reference reading |
| LockFile.TextOfRecord | src/lock/lock.c:571-581 | The text form of a record, line by line |
| TextFormat.LineSetsField | src/lock/lock.c:602-642 | A printed line that fits the buffer sets its field and nothing else, '=' in values included |
| TextFormat.OtherLines | src/lock/lock.c:609-642 | A line about no known field changes nothing; the type is a semaphore if and only if it says exactly that; numbers are read with atoi |
| TextFormat.TextRoundTripIsExact | src/lock/lock.c:563-647 | Reading back what was printed restores every printed field if and only if no string holds a newline and the command has at most 1015 characters |
| TextFormat.StoredStringsArePlain | src/lock/lock.c:602-642 | No file whatever makes the reader store a newline, an overlong string, or a character that is not in the file |
| TextFormat.LongCommandSpills | src/lock/lock.c:602-642 | A longer command is cut at 1015 characters and its rest is read as further lines |
| TextFormat.CommandsStayShort | src/lock/lock.c:590-642 | No file whatever makes the reader store a command of more than 1015 characters |
| LockFile.ReadLockFileAnyFormat | src/lock/lock.c:650-672 | The dispatcher: binary if long enough and the magic fits, else text, unreadable only if it cannot be opened |
| LockFile.ReadAnySetsMagic | src/lock/lock.c:588-672 | Every success carries the magic |
| LockFile.ReadAnyOfImage | src/lock/lock.c:653-662 | A binary image is returned as stored, whatever follows it |
| LockFile.TextIsReadAsText | src/lock/lock.c:656-668 | A printed text file of any length is read as text: its first bytes cannot be the magic |
| LockFile.TextFileRoundTripIsExact | src/lock/lock.c:563-672 | Struct to text file and back through the dispatcher restores every printed field if and only if the lock type is 0 or 1, the arrays are cleared behind their strings, no string holds a newline, and the command has at most 1015 characters |
| Names.SlotNameIsInjective | src/lock/lock.c:205 | Different descriptor and slot pairs never share a file name, dots included |
| Names.SlotNameIsScanned | src/lock/lock.c:180 | Every slot file is seen by its descriptor's scans |
| Names.SlotNameForm | src/lock/lock.c:205 | What a lock file is called |
| Names.ScanLooksAtExactly | src/lock/lock.c:180 | A scan looks at an entry if and only if its name begins with the descriptor and contains ".lock" |
| Names.CheckLooksAtExactly | src/lock/lock.c:416-419 | check_lock looks at an entry if and only if, in addition, the name goes on with a dot and the descriptor has none |
| Names.DoneLooksAtExactly | src/lock/lock.c:704-711 | done_lock looks at an entry if and only if the name is not hidden, is the descriptor or goes on from it with a dot, and contains ".lock" |
| Names.ScanSeesExactly | src/lock/lock.c:180 | A scan for d looks at a slot file of any descriptor if and only if the file name begins with d |
| Names.CheckSeesExactly | src/lock/lock.c:416-419 | check_lock on d looks at a slot file of e if and only if d has no dot and e is d or goes on from it with a dot |
| Names.OwnFileIsChecked | src/lock/lock.c:416-419 | check_lock finds a descriptor's own lock if and only if the descriptor has no dot |
| Names.DoneSeesExactly | src/lock/lock.c:704-711 | done_lock on d touches a slot file of e if and only if the name is not hidden and e is d, or goes on from it with a dot, or d spells out the file name |
| Names.OwnFileIsDone | src/lock/lock.c:704-711 | done_lock finds a descriptor's own lock if and only if the descriptor is neither empty nor begins with a dot |
| Names.FullSlotsAreMany | src/lock/lock.c:198-206 | A directory that holds all slot names below a limit holds at least that many entries |
| Names.ExportedSlotIsHeldSlot | src/process/process.c:158-167 | The exported slot is the held slot, for all slots, if and only if neither directory nor descriptor contains ".slot" |
| Names.LoggedDescriptorIsOurs | src/lock/lock.c:354-365 | The descriptor release_lock extracts is the real one if and only if it does not contain ".slot" |
| CText.AtoiOfDecimal | src/process/process.c:164 | atoi reads back what "%d" printed, whatever non-digit follows |
| CText.AtoiOfOtherText | src/lock/lock.c:616-632 | Leading blanks and a plus sign do not count, and text without digits reads as zero |
| CText.FindFromIsFirst | src/lock/lock.c:359 | The search returns the first occurrence, or there is none |
| Backoff.WaitsGrow | src/lock/lock.c:331-336 | After k sleeps the wait is at least min(10 * 2^k, 1000) and never more than 1100 ms |
| Backoff.SleepIsExact | src/lock/lock.c:323-328 | The sleep is the longest whole number of milliseconds within both the wait and nine tenths of the remaining time, and one if there is none |
| Backoff.JitterIsExact | src/lock/lock.c:332-336 | The next wait can be exactly the doubled and capped one and up to a tenth more |
| Backoff.SleepsAreBounded | src/lock/lock.c:308-336 | With timeout T at most T/1000 ms + 13 sleeps, however late they end |
| Backoff.ClippedSleepIsLong | src/lock/lock.c:323-328 | A clipped sleep leaves at most a tenth of the remaining time plus one millisecond |
| Backoff.ClippingLasts | src/lock/lock.c:323-336 | Once one sleep is clipped to the deadline, all later ones are |
| Backoff.SleepStaysNearDeadline | src/lock/lock.c:312-331 | A punctual sleep oversteps the deadline by less than 1 ms |
| Coordinator.ProcessCoordinator.constructor | src/process_coordinator/process_coordinator.c:17-34 | A new coordinator has no descriptor, no role and no child |
| Coordinator.ProcessCoordinator.PrepareFork | src/process_coordinator/process_coordinator.c:37-60 | All four descriptors or none: a failure of the second pipe leaves nothing open |
| Coordinator.ProcessCoordinator.AfterForkParent | src/process_coordinator/process_coordinator.c:63-78 | The parent keeps one write end and one read end and the child's pid; foreign descriptors are untouched |
| Coordinator.ProcessCoordinator.AfterForkChild | src/process_coordinator/process_coordinator.c:81-96 | The child keeps the two opposite ends |
| Coordinator.ProcessCoordinator.Send | src/process_coordinator/process_coordinator.c:99-128 | Result, error text and the pipe's bytes for full, short and failed writes in every role |
| Coordinator.ProcessCoordinator.WaitForData | src/process_coordinator/process_coordinator.c:305-332 | Success if and only if the first answer that is no interruption reports data |
| Coordinator.ProcessCoordinator.Receive | src/process_coordinator/process_coordinator.c:131-164 | The bytes returned are the first ones of the right pipe, as many as asked for or all there are, and they are gone from it; every failure takes nothing |
| Coordinator.ProcessCoordinator.WaitForSignal | src/process_coordinator/process_coordinator.c:167-181 | Success if and only if the next byte arrived and is the expected one; an unexpected byte is consumed |
| Coordinator.ProcessCoordinator.ParentWaitForChildReady | src/process_coordinator/process_coordinator.c:262-265 | Success if and only if this is a parent and the next byte arrived and is an 'R'; the byte is consumed either way |
| Coordinator.ProcessCoordinator.ChildSignalReady | src/process_coordinator/process_coordinator.c:267-270 | Only a child succeeds, and exactly by putting an 'R' into its pipe |
| Coordinator.ProcessCoordinator.Destroy | src/process_coordinator/process_coordinator.c:206-230 | Every descriptor is closed once and none stays open; which signals the child gets |
| Coordinator.RunKeepsInv | src/process_coordinator/process_coordinator.c:62-230 | Over every run both pipes conserve their bytes and both parties keep the ends of their roles |
| Coordinator.NothingIsLost | src/process_coordinator/process_coordinator.c:99-164 | From a prepared coordinator on, both pipes conserve their bytes and each ready party holds exactly the two ends of its role |
| Coordinator.DeliveredInOrder | src/process_coordinator/process_coordinator.c:131-164 | Over every run, in each direction: the bytes that pc_receive handed to its callers, in order, followed by what is still in the pipe, are exactly the bytes written, short writes included |
| Coordinator.BothGetReady | src/process_coordinator/process_coordinator.c:62-96 | From a prepared coordinator the fork and both after-fork calls lead to two ready parties over empty pipes |
| Coordinator.MessageArrives | src/process_coordinator/process_coordinator.c:98-164 | Between ready parties a complete write can be received at once, and its bytes arrive |
| Coordinator.ReadyPartyCanTalk | src/process_coordinator/process_coordinator.c:102-143 | A party can send and receive if and only if it has called its own after-fork function |
| Coordinator.EndMeansAllTaken | src/process_coordinator/process_coordinator.c:156-161 | A receive whose read does not fail reports a closed pipe if and only if all bytes were taken and no writer is left, or it asked for none |
| Coordinator.EndIsVisibleExactly | src/process_coordinator/process_coordinator.c:73-95 | On an empty pipe a ready party stops waiting if and only if its peer is gone, which is what closing the unused ends is for |
| Coordinator.PeerKeepsPipeWritable | src/process_coordinator/process_coordinator.c:73-95 | A ready party's writes find a reader if and only if its peer is there |
| Coordinator.AcknowledgedIsWrittenExactly | src/process_coordinator/process_coordinator.c:118-127 | The peer is offered exactly the data of the successful sends if and only if no write was short |

## Left out

- LockDirectory.Locker.AcquireLock: finding the lock directory, a failing opendir and syslog are not part of it; the run of visits is finite, and the code StillWaiting marks a run cut off while the loop was still retrying.
- LockDirectory.Locker.Claim: an open() that fails although the name is absent and a short write are one case here, since both leave no file; the protocol has them as separate steps.
- LockDirectory.Locker.DoneLock: the answers of process_exists and kill are inputs, one triple per entry; that a signalled holder then dies is a step of the protocol.
- LockDirectory.CheckAgreesWithAcquire: live records of one descriptor that disagree about the limit are not compared, since acquire_lock goes by its caller's limit and check_lock by the last record it reads.
- LockProtocol.MutualExclusion: opening and reading one entry are one step; partial contents between the start and the end of one write() are not modelled, nor are process number reuse, NFS, permissions and truncated paths.
- Backoff.SleepsAreBounded: times are exact reals; the rounding of doubles and the microsecond clock are not modelled.
- LockRecord.ParseOfImage: the layout is that of a 64-bit little-endian ABI with 8-byte time_t; other ABIs are not modelled.
- CText.AtoiOfDecimal: integers are unbounded, so the overflow of atoi is not modelled; LockFile narrows to the fields' widths afterwards.
- ExecCommand.Runner.ExecWithLock: what execvp does in the child, and signals that arrive outside the waitpid loop, are not part of the method; ExecMode has the latter as steps.
- Coordinator.ProcessCoordinator.Receive: how long select() waits is not modelled; its answers and read()'s failure are inputs.
- The legacy coordinator wrappers other than the ready handshake: the same role check in front of send, receive or waitpid.
- find_lock_directory, portable_lock, hostname, command line and CPU probing: operating-system queries.
- list_locks, usage, version, debug, error and syslog output: output only.
- Option parsing: only its guarantees are used, a limit of at least one and no '/' in a descriptor.
- process_exists: a set of live process numbers.
- The real clock, usleep and rand: a monotone time, a sleep duration and a jitter in range.
- src/pipe_coordinator: thin wrappers that ProcessCoordinator supersedes.
