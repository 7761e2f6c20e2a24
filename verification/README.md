# Upriv: a verified model

Upriv keeps encrypted vaults below a vault root. A Rust core owns the vaults, the log and the
sessions, a daemon process serves it over standard input and output, and a desktop shell and a
shared user interface drive it. This project models the stateful parts of that system in Dafny and
proves what they are for. Files, clocks and ciphers are values: a directory is a map, time is a
number that is passed in, and the cipher is the ideal form of the AEAD interface of RFC 5116,
section 2 (a blob opens exactly under the associated data it was sealed with).

Check everything with `dafny verify dfyconfig.toml`.

## Components

- **Calendar** (`Calendar`, `LogNames`, `Text`). The era arithmetic of `utc_ymdhms` against
  day-by-day Gregorian counting, and the stamps and names built on it.
- **Log** (`LogFormat`, `LineCounts`, `LogDirectory`, `LogHistory`, `LogSteps`, `LogPruning`, `LogRuns`,
  `LogLosses`, `LogNumbering`, `LogWriter`). The history of a run records every file ever created with
  all its lines, and which files were removed. A line is taken into the buffer of the open file, gets
  into the file when the buffer is written out, and is lost when the file is given up before that.
  `LogHistory` says which operations the logger may perform and what they keep; `LogSteps` says which
  operations one call performs, for any failures, and `LogPruning` what they remove;
  `LogWriter.Logger` is the code with its loops and fields, performing those operations; `LogRuns`,
  `LogLosses` and `LogNumbering` prove the whole-run theorems, in which a crash ends the process
  after any operation.
- **Chunked store** (`Json`, `StoreAad`, `ChunkMath`, `ChunkStore`). Files cut into sealed chunks
  refine a map from path to bytes and fail closed for any content of the data directory.
- **Unlock throttle** (`UnlockThrottle`). The sliding window over gate-serialized unlocks.
- **Vault protocol** (`VaultConfigs`, `VaultProtocol`, `VaultSafety`, `VaultSchedules`,
  `SessionTable`). Threads open, create, close and reconfigure vaults, one lock operation at a time.
  `VaultProtocol` is the machine, with mutual exclusion and freedom from deadlock; `VaultSafety`
  proves what runs keep, and exactly when marks stand; `VaultSchedules` shows two schedules that
  break it when its side conditions are dropped.
- **Transport** (`Sequences`, `LineSplitting`, `StdoutFraming`, `RpcTransport`, `RpcEndpoints`). The framing loop,
  and the client and server as one system of interleaved events.
- **Pipeline runner** (`PipelineRunner`, `PipelineHook`). The queue of open, close and create jobs
  with generations, budgets and re-entrant callbacks.
- **Alias file** (`VaultRootAlias`). The printer and the reader of `.upriv-root`.

## Where code and documentation differ

- Log numbers are documented as monotonic across the log history. They stop growing when a call
  creates a file while the newest one is gone, and only then (`LogNumbering.NumbersGrowExactly`). The
  newest file is gone when a rotation prunes the file it just archived and then cannot create the
  next one, with the process living on, or is cut short before it has
  (`LogNumbering.NewestGoneExactly`; both runs: `LogNumbering.NumbersRestart`).
- A call that succeeds is meant to have written its line. A line that fits the buffer is taken without
  any output, and a failure of the flush after it is ignored, so that the line can be lost later
  (`LogLosses.AcknowledgedLineLost`; exactly when: `LogLosses.RunsConserveExactly`,
  `LogLosses.CallLosesExactly`).
- Pruning is meant to drop the oldest lines. It skips a file that it cannot count and removes younger
  ones, so that what is missing need not be a prefix (`LogRuns.OnlyOldestGoneExactly`); it is one while
  every file can be counted (`LogRuns.CountingAllKeepsPrefix`).
- The daemon means to finish the work of its worker before it exits (`dev/crates/upriv-daemon/src/main.rs:223`).
  It answers `app_shutdown` before that (`dev/crates/upriv-daemon/src/main.rs:213-217`), and on the
  answer the shell sends SIGTERM, and SIGKILL two seconds later
  (`dev/apps/electron/src/daemon.ts:418-446`), which the daemon does not handle: an ordinary stop
  leaves the work unanswered (`RpcTransport.ShutdownCutsTheDrain`; exactly when it does not:
  `RpcTransport.KillSparesExactly`).
- The stdout cap is described as a cap on an incomplete line. It applies to the residual and the
  whole next piece (`StdoutFraming.CompleteLinesCanBeDiscarded`; exactly when nothing is lost:
  `StdoutFraming.NothingIsLostExactly`).
- The comment at the healing of the alias says that the answer is inactive. A later `status=active`
  line makes it active while the file becomes inactive (`VaultRootAlias.SecondReadAgreesExactly`).
- The number of a line is meant to be its place in the file. A line too long for the buffer that fails
  twice leaves the handle one ahead, and the next line skips a number
  (`LogNumbering.NumberSkippedAfterTwoFailures`; exactly when: `LogNumbering.LinesCountExactly`,
  `LogNumbering.AheadExactly`).
- The closing mark is meant to cover every flush. Of two overlapping closes of a vault the first to end
  clears the mark of the other (`VaultSchedules.OverlappingClosesOpenAGap`; exactly when:
  `VaultSafety.MarksExactly`, `VaultSafety.MarksStandExactly`). The daemon answers `vault_close` on its
  single stdin thread, so there closes come in turn and marks stand (`VaultSafety.InTurnMarksStand`);
  only a caller of `invoke` in `dev/crates/upriv-ffi/src/lib.rs:66` with several threads can overlap two.
- The rollback of a failed create can remove a vault that was opened meanwhile
  (`VaultSchedules.FailedCreateOrphansASession`, exactly when: `VaultSafety.RollBackIsSafeExactly`). In
  the daemon `vault_open` and `vault_create` share the one worker (`dev/crates/upriv-daemon/src/wire.rs:45`), so there
  they never overlap; only a caller of `invoke` in `dev/crates/upriv-ffi/src/lib.rs:66` with several
  threads can overlap the two.

## Model

| member | source | states |
|---|---|---|
| Calendar.YearOfEraIsExact | dev/crates/upriv-core/src/time/mod.rs:25-45 | The quotient by 365 after the three leap corrections is the year of the 400-year era that contains the day, for every day of an era. |
| Calendar.DateOfDaySteps | dev/crates/upriv-core/src/time/mod.rs:25-45 | Adding one to the day count moves the closed form by exactly one Gregorian calendar step, over month, year, century and era ends. |
| Calendar.DateOfDayIsGregorian | dev/crates/upriv-core/src/time/mod.rs:25-45 | The closed form equals the date reached by stepping that many days from 1970-01-01 with the month lengths and leap rule of RFC 3339 (section 5.7, Appendix C). |
| Calendar.DayNumberOfDate | dev/crates/upriv-core/src/time/mod.rs:25-45 | The reached date is a real date, and counting days before its year and month gives the day number back, so no two day numbers share a date. |
| Calendar.UtcYmdhmsIsExact | dev/crates/upriv-core/src/time/mod.rs:25-45 | Fields stay in range; date equality and recombination of the six fields into `seconds` hold exactly when the year fits in 32 bits. |
| Calendar.OrdinalIsMonotone | dev/crates/upriv-core/src/time/mod.rs:18-22 | A later second has a later year-to-second ordinal. |
| LogNames.StampOf | dev/crates/upriv-core/src/time/mod.rs:18-22 | The stamp consists of digits only. |
| LogNames.NamesRoundTrip | dev/crates/upriv-core/src/logging/names.rs:5-28 | Both parsers recover number and stamp from the printed names for every u32 number and exactly for 14-digit stamps; stripping `current-` turns one form into the other, and neither parser accepts the other form. |
| LogNames.PrintedNamesAreRecognised | dev/crates/upriv-core/src/logging/names.rs:5-28 | A name printed at some second is recognised exactly when the year has at most four digits. |
| LogNames.StampToIsoIsExact | dev/crates/upriv-core/src/logging/store.rs:170-180 | A printed stamp turns into the RFC 3339 form of the second it was printed in. |
| LogNames.LexIsNumeric | dev/crates/upriv-core/src/time/mod.rs:18-22 | On digit strings of equal length lexicographic order is numeric order. |
| LogNames.StampOrderIsTimeOrder | dev/crates/upriv-core/src/time/mod.rs:18-22 | Stamps compare as strings exactly as their seconds compare, up to year 9999. |
| LogFormat.SanitizeToken | dev/crates/upriv-core/src/logging/format.rs:34-43 | A sanitized token is non-empty and holds no white space. |
| LogFormat.SanitizeValue | dev/crates/upriv-core/src/logging/format.rs:45-49 | A sanitized value keeps its length and holds neither `\n` nor `\r`. |
| LogFormat.FormatLogLine | dev/crates/upriv-core/src/logging/format.rs:7-32 | The loop over the fields produces the specified line, one line whatever the fields hold. |
| LogFormat.LinesHoldNoNewline | dev/crates/upriv-core/src/logging/format.rs:7-49 | Whatever event, keys and values are, the formatted line has no newline. |
| LogFormat.DecimalOverflowsAtTenThousand | dev/crates/upriv-core/src/logging/format.rs:7-32 | The zero-padded index has width four exactly below ten thousand. |
| LogFormat.EffectiveEntriesPerFile | dev/crates/upriv-core/src/logging/config.rs:58-64 | The threshold in force is between 1 and 1000 and is the configured one when that is in range. |
| LineCounts.CountLines | dev/crates/upriv-core/src/logging/store.rs:196-204 | The pass over the text counts its lines, saturating at the u32 maximum. |
| LineCounts.FileTextHasOneLinePerEntry | dev/crates/upriv-core/src/logging/writer.rs:351-360 | Counting lines of a log file text gives the number of its entries. |
| LineCounts.LineCountCache.CountLinesCached | dev/crates/upriv-core/src/logging/store.rs:206-242 | While each path only grows by appends, the cached answer is the direct count, hit or miss. |
| LogDirectory.RenameKeepsNumbers | dev/crates/upriv-core/src/logging/writer.rs:260-278 | Renaming between the current and archived form overwrites nothing and leaves the number-to-lines table unchanged. |
| LogHistory.OpHolds | dev/crates/upriv-core/src/logging/writer.rs:104-314 | Each operation, where the logger may perform it, keeps the directory exactly the recorded files that were not removed: one file per number, each with all its lines, at most one current and that the newest; and the buffered lines are the last ones counted. |
| LogHistory.WindowReads | dev/crates/upriv-core/src/logging/writer.rs:362-405 | The files of the directory by number are the recorded ones that were not removed, in the order of their creation. |
| LogHistory.ReadBackIsNumberOrder | dev/crates/upriv-core/src/logging/writer.rs:205-242 | Archived files by number and then the current one give the lines of those files in that order. |
| LogHistory.OpConserves | dev/crates/upriv-core/src/logging/writer.rs:104-160 | Each operation keeps all lines that are in files or in the buffer, in order, and adds the one it takes; only giving up the file drops what its buffer still holds. |
| LogHistory.ConservedExactly | dev/crates/upriv-core/src/logging/writer.rs:104-160 | After any allowed operations the lines held are those held before and those taken since exactly when no file was given up with lines in its buffer; otherwise they are fewer. |
| LogHistory.OpKeepsPrefix | dev/crates/upriv-core/src/logging/writer.rs:362-405 | While only the oldest files are gone, an operation leaves it so exactly unless it removes a file that is not the oldest. |
| LogHistory.OpNumbers | dev/crates/upriv-core/src/logging/writer.rs:128-137 | Lines go on counting 1, 2, 3, ... in every file exactly unless a line gets into a file whose handle is ahead. |
| LogHistory.OpGrows | dev/crates/upriv-core/src/logging/writer.rs:333-349 | Numbers keep growing exactly when each new file takes the one after the largest ever used. |
| LogSteps.FlushFollows | dev/crates/upriv-core/src/logging/writer.rs:84-91 | Writing out any number of buffered lines performs only allowed operations and ends in the state they lead to. |
| LogSteps.OpenFollows | dev/crates/upriv-core/src/logging/writer.rs:197-258 | So does reopening, whether it resumes the current file, creates one, or fails. |
| LogSteps.PruneFollows | dev/crates/upriv-core/src/logging/writer.rs:362-405 | Each removal of a prune takes the oldest file that could be counted while the counted ones are over the budget; what is left is the specified remainder. |
| LogSteps.CreateFollows | dev/crates/upriv-core/src/logging/writer.rs:273-313 | Creating the next file, or rolling the archive back when that fails, performs only allowed operations in all failure branches. |
| LogSteps.RotateFollows | dev/crates/upriv-core/src/logging/writer.rs:260-314 | So does a whole rotation, at every failure, also when the buffer cannot be written out. |
| LogSteps.PutFollows | dev/crates/upriv-core/src/logging/writer.rs:129-134 | Taking a line into the buffer, writing the buffer out first when it does not fit, and writing a long line past it, perform only allowed operations in all branches. |
| LogSteps.RetryFollows | dev/crates/upriv-core/src/logging/writer.rs:139-151 | Giving up the file after a failed write, reopening and writing once more perform only allowed operations at every failure. |
| LogSteps.WriteFollows | dev/crates/upriv-core/src/logging/writer.rs:104-154 | One log call from any state the logger can be in, with any failures, performs only allowed operations and ends in the state they lead to. |
| LogPruning.PruneIsExact | dev/crates/upriv-core/src/logging/writer.rs:362-405 | With all removals succeeding pruning leaves the largest oldest-first remainder whose counted lines are within `keep_last_entries`, whatever could not be counted. |
| LogPruning.PrunesNewestExactly | dev/crates/upriv-core/src/logging/writer.rs:362-405 | A prune removes the newest file exactly when it was counted, is over the budget by itself, and no removal of a counted file fails. |
| LogPruning.NewestGoesExactly | dev/crates/upriv-core/src/logging/writer.rs:260-276 | Within a call the newest file is gone at exactly one moment, between the last removal and the next file, and only of a call that prunes it. |
| LogRuns.RunsAreLawful | dev/crates/upriv-core/src/logging/writer.rs:104-314 | Every run from an empty directory, with failures, restarts, releases, crashes after any operation and calls that fail twice, performs only allowed operations and holds exactly its recorded files that were not removed. |
| LogRuns.RunsReadBack | dev/crates/upriv-core/src/logging/writer.rs:104-314 | At every moment of every run the directory reads back, once and in order, every line ever in a file except those of whole removed files, one per removal made so far; nothing is missing when pruning is off. |
| LogRuns.RemovalsAreNeeded | dev/crates/upriv-core/src/logging/writer.rs:362-405 | Every removal of every run takes a counted archived file while the counted ones hold more than `keep_last_entries` lines, and every older file left was skipped. |
| LogRuns.OnlyOldestGoneExactly | dev/crates/upriv-core/src/logging/writer.rs:385-404 | In a run the files missing are always the oldest ones exactly when every removal took the oldest file. |
| LogRuns.ReadsBackTheRest | dev/crates/upriv-core/src/logging/writer.rs:362-405 | Whenever only the oldest files are gone, all lines ever in a file are those of the removed files followed by the read-back. |
| LogRuns.CallSkips | dev/crates/upriv-core/src/logging/writer.rs:385-391 | The files a prune leaves behind are among those the call could not count. |
| LogRuns.CountingAllKeepsPrefix | dev/crates/upriv-core/src/logging/writer.rs:362-405 | While every file can be counted, the files missing are always the oldest ones. |
| LogRuns.AcknowledgedLineIsLast | dev/crates/upriv-core/src/logging/writer.rs:118-154 | After a successful call there is exactly one `current-*`, its number exceeds all others, and the line is the last of its file and buffer; the buffer is empty unless the flush after the line got stuck. |
| LogRuns.RunsAreBounded | dev/crates/upriv-core/src/logging/writer.rs:122-126 | While creating the next file never fails no file, with its buffer, grows past the threshold in force, at most 1000 lines, whatever else fails. |
| LogRuns.PathsOnlyGrow | dev/crates/upriv-core/src/logging/store.rs:206-242 | Unless a run gives a name out twice, the text under a path only grows, which is what the cache of line counts relies on. |
| LogRuns.GrowingNumbersDiffer | dev/crates/upriv-core/src/logging/writer.rs:333-349 | While numbers grow no name is given out twice. |
| LogLosses.CallAccepts | dev/crates/upriv-core/src/logging/writer.rs:104-154 | A call takes its entry exactly once when it succeeds, and nothing otherwise. |
| LogLosses.CallLosesExactly | dev/crates/upriv-core/src/logging/writer.rs:111-152 | A call loses lines exactly when it drops a stale handle with lines in its buffer, when a rotation can write them out neither itself nor on giving up the file, or when the line is refused and giving up the file cannot either. |
| LogLosses.EventLosesExactly | dev/crates/upriv-core/src/logging/writer.rs:70-160 | So does a crash with lines in the buffer, and a restart or a release that does not get all of them out; nothing else does. |
| LogLosses.RunsConserveExactly | dev/crates/upriv-core/src/logging/writer.rs:104-160 | In a run the lines in files, removed ones included, and then those in the buffer are the entries of the calls that succeeded, or had taken them when they were cut short, in order, exactly when no event loses lines; otherwise they are fewer. |
| LogLosses.AcknowledgedLineLost | dev/crates/upriv-core/src/logging/writer.rs:133-137 | Counterexample: with a full disk a call succeeds with its line in the buffer only, and a crash or a restart loses it. |
| LogNumbering.NewestGoneExactly | dev/crates/upriv-core/src/logging/writer.rs:260-314 | An event of a run leaves the newest file removed exactly when a call prunes it and then cannot create its next file or is cut short before it has. |
| LogNumbering.EventTakesNext | dev/crates/upriv-core/src/logging/writer.rs:333-349 | Each event gives its files the number after the largest ever used exactly unless it creates a file while the newest one is gone. |
| LogNumbering.NumbersGrowExactly | dev/crates/upriv-core/src/logging/writer.rs:333-349 | In a run every file gets a number larger than all before it exactly when no call creates a file while the newest one is gone. |
| LogNumbering.NumbersRestart | dev/crates/upriv-core/src/logging/writer.rs:269-276 | Two runs from the empty directory whose numbers restart: one goes on in the same process after `create_new` was refused, one after a crash. |
| LogNumbering.LinesCountExactly | dev/crates/upriv-core/src/logging/writer.rs:128-152 | In a run the lines of every file count 1, 2, 3, ... exactly when no line gets into a file whose handle is ahead. |
| LogNumbering.AheadExactly | dev/crates/upriv-core/src/logging/writer.rs:138-152 | A call leaves its handle ahead exactly when both its writes fail, or it wrote through one that was ahead. |
| LogNumbering.AheadMeansFailedTwice | dev/crates/upriv-core/src/logging/writer.rs:138-152 | In a run a handle is ahead only after a call that failed twice. |
| LogNumbering.AcknowledgedNumberExactly | dev/crates/upriv-core/src/logging/writer.rs:128-137 | An acknowledged line is the last of the active file and its buffer, and its number is its place there exactly unless it was written through a handle that was ahead. |
| LogNumbering.NumberSkippedAfterTwoFailures | dev/crates/upriv-core/src/logging/writer.rs:138-152 | A run from the empty directory in which the first line of a file has number 2, for any line that is too long for the buffer. |
| LogWriter.OldestOfListing | dev/crates/upriv-core/src/logging/writer.rs:362-405 | The head of the sorted listing is the oldest archived file that could be counted, and its lines are the difference of the totals. |
| LogWriter.SumOfListing | dev/crates/upriv-core/src/logging/writer.rs:362-405 | The running total over the listing is the number of lines in the archived files that could be counted. |
| LogWriter.OnlyCandidate | dev/crates/upriv-core/src/logging/writer.rs:205-242 | In a directory the logger produced, the resume candidates are the one current file. |
| LogWriter.Logger.NextSequenceNumber | dev/crates/upriv-core/src/logging/writer.rs:333-349 | The scan returns one more than the largest number in the directory. |
| LogWriter.Logger.TryResumeCurrent | dev/crates/upriv-core/src/logging/writer.rs:205-242 | Resume picks the highest current file, archives the others one by one and counts its lines; a failing rename leaves those before it archived. |
| LogWriter.Logger.ArchiveStale | dev/crates/upriv-core/src/logging/writer.rs:205-242 | Stale current files are archived lowest number first, up to the rename that fails; no line is lost, and if none fails exactly the newest stays current. |
| LogWriter.Logger.OpenOrCreateActive | dev/crates/upriv-core/src/logging/writer.rs:197-203 | The method reaches exactly the specified reopening step. |
| LogWriter.Logger.PruneOldFiles | dev/crates/upriv-core/src/logging/writer.rs:362-405 | Listing, skipping what cannot be counted, sorting, and the loop with its running total perform exactly the specified removals, in the specified order. |
| LogWriter.Logger.WriteOut | dev/crates/upriv-core/src/logging/writer.rs:84-91 | The loop carries the first lines of the buffer into the file one by one, in order, and keeps the others. |
| LogWriter.Logger.Quit | dev/crates/upriv-core/src/logging/writer.rs:139-141 | Giving up the file writes its buffer out once more and loses exactly what does not get out. |
| LogWriter.Logger.PutLine | dev/crates/upriv-core/src/logging/writer.rs:129-134 | The method takes the specified branch for a line: into the buffer, after writing the buffer out, past it, or refused. |
| LogWriter.Logger.RotateActive | dev/crates/upriv-core/src/logging/writer.rs:260-314 | The method performs exactly the specified rotation, including rollback and a buffer that cannot be written out, with every intermediate directory. |
| LogWriter.Logger.Write | dev/crates/upriv-core/src/logging/writer.rs:104-154 | The method performs exactly the specified call, including stale-handle detection, rotation, the single retry, and the handle that a second failure leaves behind. |
| LogWriter.Logger.Retry | dev/crates/upriv-core/src/logging/writer.rs:139-151 | The method gives up the file, reopens and writes once more exactly as specified. |
| LogWriter.Logger.ReleaseActiveNamed | dev/crates/upriv-core/src/logging/writer.rs:66-82 | The handle is dropped exactly when its base name is the given one, after writing its buffer out as far as that goes. |
| Json.EscapeIsPrefixFree | dev/crates/upriv-core/src/contents/header.rs:90-121 | JSON string escaping is injective even when followed by different text. |
| Json.ObjectIsInjective | dev/crates/upriv-core/src/contents/header.rs:90-121 | Two compact JSON objects with the same text have the same keys and values in the same order (RFC 8259, section 4). |
| StoreAad.AadIsInjective | dev/crates/upriv-core/src/contents/header.rs:67-121 | Two byte strings of associated data are equal if and only if kind, chunk position and every header field but the wrapped key are equal, for all strings. |
| StoreAad.ChunkAadDetermines | dev/crates/upriv-core/src/contents/header.rs:123-148 | Chunk data determines file id, index, size and length, and wrap, index and chunk data never coincide, even across vaults. |
| ChunkMath.ChunkArithmeticIsExact | dev/crates/upriv-core/src/contents/chunk.rs:41-47 | The cast chunk count is the slice count modulo 2^32, and equals it exactly when the size is at most 2^32 - 1 chunks. |
| ChunkMath.PlainLenIsSliceLength | dev/crates/upriv-core/src/contents/chunk.rs:49-55 | The computed plain length of a chunk is the length of the slice written for it. |
| ChunkMath.ChunkLengthsSumToFileSize | dev/crates/upriv-core/src/contents/chunk.rs:41-55 | The chunk lengths add up to the file size exactly when no cast loses bits. |
| ChunkStore.ChunkFileNamesDiffer | dev/crates/upriv-core/src/contents/chunk.rs:26-39 | Chunk file names of different file ids or indices differ. |
| ChunkStore.OnlyTheChunkOpens | dev/crates/upriv-core/src/contents/chunk.rs:175-196 | Under an ideal AEAD whatever blob opens under a position is a chunk sealed for that file, size and position. |
| ChunkStore.OpenChunkIsFaithful | dev/crates/upriv-core/src/contents/chunk.rs:165-200 | An opened chunk is the slice that belongs there, and a chunk in place opens. |
| ChunkStore.ReadFile | dev/crates/upriv-core/src/contents/chunk.rs:143-211 | For any content of the data directory the read returns the bytes last written to the path or an error; it succeeds when the chunks are in place and fails whenever the file has 2^32 chunks or more. |
| ChunkStore.ReadChunks | dev/crates/upriv-core/src/contents/chunk.rs:159-211 | The read loop returns the whole file in order or an error. |
| ChunkStore.RemovalIsSafe | dev/crates/upriv-core/src/contents/chunk.rs:74-91 | Removing a path removes exactly its entry and its chunk files, and keeps all other files readable. |
| ChunkStore.AddingIsSafe | dev/crates/upriv-core/src/contents/chunk.rs:120-140 | Adding the written entry sets exactly that path in the map and keeps intactness and the exact set of chunk files. |
| ChunkStore.TidyWith | dev/crates/upriv-core/src/contents/chunk.rs:120-140 | After a write the data directory holds exactly the chunk files of the indexed entries. |
| ChunkStore.TidyWithout | dev/crates/upriv-core/src/contents/chunk.rs:74-91 | The same after a removal. |
| ChunkStore.SealedIsAChunk | dev/crates/upriv-core/src/contents/chunk.rs:120-138 | Sealing a slice keeps every blob under the key a chunk of a file that was written. |
| ChunkStore.Store.constructor | dev/crates/upriv-core/src/contents/mod.rs:42-66 | A new store is empty, intact and holds no chunk files. |
| ChunkStore.Store.Rearrange | dev/crates/upriv-core/src/contents/chunk.rs:143-211 | Any rearrangement, replay or loss of blobs leaves the recorded map as it was. |
| ChunkStore.Store.ReadLogicalFile | dev/crates/upriv-core/src/contents/chunk.rs:143-211 | Fail closed on the mutable store, and exact on an intact one. |
| ChunkStore.Store.RemoveFileChunks | dev/crates/upriv-core/src/contents/chunk.rs:74-91 | The loop deletes exactly the chunk files counted by the cast count. |
| ChunkStore.Store.RemoveExisting | dev/crates/upriv-core/src/contents/chunk.rs:110-118 | The old version of the path disappears from the map, nothing else changes. |
| ChunkStore.Store.WriteChunks | dev/crates/upriv-core/src/contents/chunk.rs:120-134 | The loop writes every slice under its name and seals it under its position. |
| ChunkStore.Store.WriteLogicalFile | dev/crates/upriv-core/src/contents/chunk.rs:93-140 | A successful write updates the map at exactly this path, keeps ids and paths distinct, intactness, and (below 2^32 chunks) the exact set of chunk files; a failure changes nothing. |
| UnlockThrottle.Throttle.CheckUnlockAllowed | dev/crates/upriv-core/src/session/mod.rs:230-245 | The check changes only this directory's bucket, clearing it when its block has run out. |
| UnlockThrottle.Throttle.RecordUnlockFailure | dev/crates/upriv-core/src/session/mod.rs:253-269 | The retain loop keeps exactly the failures of the last sixty seconds; the call reports a block exactly when four of them were left. |
| UnlockThrottle.Throttle.RecordUnlockSuccess | dev/crates/upriv-core/src/session/mod.rs:247-251 | A success forgets this directory's failures and block and nothing else. |
| UnlockThrottle.Throttle.Unlock | dev/crates/upriv-core/src/vault/open_close.rs:29-47 | The throttle calls of one open act on this directory alone and follow the run specification. |
| UnlockThrottle.KeptIsRecentEnd | dev/crates/upriv-core/src/session/mod.rs:253-260 | What `retain` keeps is the recent end of all failures recorded since the last success; everything older is out of the window. |
| UnlockThrottle.RunKeepsInv | dev/crates/upriv-core/src/session/mod.rs:230-269 | In every gate-serialized run the bucket holds at most four failures, all that are still in the window, and a block outlasts every recorded failure's window. |
| UnlockThrottle.WindowHoldsAtMostFive | dev/crates/upriv-core/src/session/mod.rs:230-269 | Between two successful unlocks any sixty-second window holds at most five recorded failures. |
| UnlockThrottle.FifthFailureBlocks | dev/crates/upriv-core/src/session/mod.rs:253-269 | A wrong password starts a block ending sixty seconds later exactly when it is the fifth failure within sixty seconds since the last success. |
| UnlockThrottle.BlockHolds | dev/crates/upriv-core/src/session/mod.rs:230-245 | Until the block ends no attempt reaches the store, and attempts change nothing. |
| UnlockThrottle.RetryIsBetweenOneAndSixty | dev/crates/upriv-core/src/session/mod.rs:235-239 | The reported retry time is between 1 and 60 seconds. |
| VaultConfigs.NormalizeMountIdempotent | dev/crates/upriv-core/src/paths/workspace.rs:116-124 | Normalizing a mount path twice is normalizing it once. |
| VaultConfigs.CheckedSaveIsExact | dev/crates/upriv-core/src/config/edit_policy.rs:32-89 | A checked save of a loadable vault goes through exactly when it keeps the id and, while busy, every quiet field; then the next load gives the same quiet fields. |
| VaultProtocol.OneKeyDerivation | dev/crates/upriv-core/src/session/mod.rs:92-98 | In every interleaving of opens and creates at most one thread is in the key derivation. |
| VaultProtocol.NeverDeadlocked | dev/crates/upriv-core/src/vault/create.rs:31-62 | In every reachable state each unfinished call can move or waits for one that can; the move shortens that call and touches no other thread. |
| VaultProtocol.RunKeepsLocks | dev/crates/upriv-core/src/session/mod.rs:92-113 | The unlock gate and each directory gate are held by exactly the threads whose place says so. |
| VaultProtocol.BlockerCanMove | dev/crates/upriv-core/src/session/mod.rs:92-113 | Following directory gate and then unlock gate always ends at a thread that can move. |
| VaultSafety.MarksExactly | dev/crates/upriv-core/src/session/mod.rs:186-206 | Each event keeps every close in progress marked exactly unless it ends a close while another close of the vault is at work. |
| VaultSafety.MarksStandExactly | dev/crates/upriv-core/src/session/mod.rs:186-206 | In a run every close in progress is marked in every state exactly when no close ends while another of its vault is at work. |
| VaultSafety.InTurnMarksStand | dev/crates/upriv-core/src/session/mod.rs:186-206 | Marks stand when each close of a vault begins after the last one has returned. |
| VaultSafety.OneCreateWins | dev/crates/upriv-core/src/vault/create.rs:31-62 | Per directory at most one create succeeds, a refused create lost to one that succeeded, and outside the gate the directory is absent or complete. |
| VaultSafety.RunKeepsStages | dev/crates/upriv-core/src/vault/create.rs:31-62 | While a create holds the gate its directory is at exactly the stage its place says. |
| VaultSafety.BusyWithoutAGap | dev/crates/upriv-core/src/session/mod.rs:153-226 | While marks stand, the root switch and quiet saves are blocked in every state from the gate taken by an open until a close has persisted. |
| VaultSafety.ActivityEnds | dev/crates/upriv-core/src/vault/open_close.rs:29-100 | Activity begins when an open takes the gate and ends only by a refused open or a persisted close; a failed close leaves no gap. |
| VaultSafety.RunKeepsMarks | dev/crates/upriv-core/src/session/mod.rs:186-206 | While marks stand every close past its entry has its mark set. |
| VaultSafety.QuietFieldsFrozen | dev/crates/upriv-core/src/config/edit_policy.rs:52-89 | In every orderly run, from the load inside an open until the close has ended, the file on disk keeps the display name, mount, storage mode, normalized security mode and id that the open loaded, and the session's mode is the one on disk. |
| VaultSafety.SaveKeepsFit | dev/crates/upriv-core/src/config/edit_policy.rs:75-89 | A checked save never breaks the agreement between a session and its file. |
| VaultSafety.RollBackIsSafeExactly | dev/crates/upriv-core/src/vault/create.rs:57-60 | A create's rollback keeps sessions and files in agreement exactly when nobody has loaded the vault it removes. |
| VaultSchedules.OpenSucceeds | dev/crates/upriv-core/src/vault/open_close.rs:24-58 | An undisturbed open of an openable vault ends with exactly one more session and the gate free. |
| VaultSchedules.OverlappingClosesOpenAGap | dev/crates/upriv-core/src/session/mod.rs:186-206 | From a program at rest an open and two overlapping closes reach a state in which the first close has yet to persist and nothing blocks the root switch or a quiet save. |
| VaultSchedules.FailedCreateOrphansASession | dev/crates/upriv-core/src/vault/create.rs:40-61 | From a program at rest an open between the seeding and the failure of a create leaves a session whose vault is removed. |
| VaultSchedules.CreateReachesIt | dev/crates/upriv-core/src/vault/create.rs:31-56 | The state the counterexample starts from is reached. |
| SessionTable.Table.InsertSession | dev/crates/upriv-core/src/session/mod.rs:208-215 | Inserting never replaces a session. |
| SessionTable.Table.TakeSession | dev/crates/upriv-core/src/session/mod.rs:217-221 | Taking removes and returns exactly the session of the directory. |
| SessionTable.Table.BusyFlags | dev/crates/upriv-core/src/session/mod.rs:153-184 | The flags computed from the map, the set and the gate are the protocol's predicates. |
| SessionTable.Table.CloseVault | dev/crates/upriv-core/src/vault/open_close.rs:64-100 | An undisturbed close succeeds exactly when a session was there, the prompt was answered and persisting worked; otherwise the session map is as before, and the mark is cleared either way. |
| LineSplitting.FramingIsUnique | dev/apps/electron/src/daemon.ts:388-394 | There is only one way to cut a stream into newline-free lines and a newline-free rest. |
| LineSplitting.FramingRejoins | dev/apps/electron/src/daemon.ts:388-394 | The cut lines and the rest give the stream back, and no line holds a newline. |
| LineSplitting.LinesContinue | dev/apps/electron/src/daemon.ts:381-394 | Reading on from a residual gives the lines of the whole stream. |
| StdoutFraming.StdoutReader.OnData | dev/apps/electron/src/daemon.ts:381-395 | The handler hands on the trimmed lines of buffer and piece and keeps the rest, or discards both over the cap. |
| StdoutFraming.FramingIgnoresChunking | dev/apps/electron/src/daemon.ts:381-395 | However the stream is cut, within the cap the lines handed on are its newline-terminated lines in order and once each. |
| StdoutFraming.TwoCuttingsAgree | dev/apps/electron/src/daemon.ts:381-395 | Two cuttings of one stream within the cap give the same lines and residual. |
| StdoutFraming.NothingIsLostExactly | dev/apps/electron/src/daemon.ts:383-387 | No character is lost exactly when no piece takes the buffer over the cap. |
| StdoutFraming.CompleteLinesCanBeDiscarded | dev/apps/electron/src/daemon.ts:383-387 | Counterexample: a large enough piece of complete, empty lines is thrown away. |
| RpcTransport.ClientStep | dev/apps/electron/src/daemon.ts:284-320 | Every event keeps `pending` exactly the issued unsettled ids and changes no settled promise. |
| RpcTransport.PendingIsExact | dev/apps/electron/src/daemon.ts:448-480 | In every interleaving `pending` is exactly the issued unsettled ids; once not alive every issued promise is settled. |
| RpcTransport.SettledForGood | dev/apps/electron/src/daemon.ts:448-480 | A settled promise keeps its outcome for the rest of the run. |
| RpcTransport.ResultsAreOwn | dev/apps/electron/src/daemon.ts:284-305 | A promise resolved, or rejected by a daemon error, was settled by the reply to its own request. |
| RpcTransport.AnsweredOnce | dev/crates/upriv-daemon/src/main.rs:150-218 | The daemon answers each request at most once, whatever times out, breaks or dies. |
| RpcTransport.DrainedBeforeExit | dev/crates/upriv-daemon/src/main.rs:223-228 | Whenever the process has exited with working stdout, the heavy requests left unanswered are exactly those still with the worker, in order; all lines taken are answered exactly when there are none, and always when the process ended by itself. |
| RpcTransport.KillSparesExactly | dev/apps/electron/src/daemon.ts:418-446 | A signal that ends the process, as `stopDaemon` sends it, leaves every line taken answered exactly when nothing is queued for the worker or in its hands. |
| RpcTransport.ExitIsFinal | dev/apps/electron/src/daemon.ts:418-446 | After the exit nothing is taken or answered any more, so what was unanswered stays so. |
| RpcTransport.ShutdownCutsTheDrain | dev/apps/electron/src/daemon.ts:418-446 | Counterexample: an ordinary stop with a `vault_open` at the worker ends the process with the open unanswered, although stdout works. |
| RpcTransport.ReceiveAccounts | dev/crates/upriv-daemon/src/main.rs:94-97 | When the worker meets the sentinel nothing waits behind it; receiving a request loses none. |
| RpcTransport.AnswerAccounts | dev/crates/upriv-daemon/src/main.rs:97-106 | The worker answers the oldest request it was sent; nothing is forgotten while stdout works. |
| RpcTransport.ClosingAccounts | dev/crates/upriv-daemon/src/main.rs:224-225 | The sentinel is sent after the last request, and no request after it. |
| RpcTransport.DrainGoesOn | dev/crates/upriv-daemon/src/main.rs:223-228 | Until the process has exited one of the closing steps is possible, each of them brings the exit nearer, and nothing else puts it off. |
| RpcTransport.ReadAccounts | dev/crates/upriv-daemon/src/main.rs:150-218 | A turn of the stdin loop answers or queues its line; nothing taken is forgotten while stdout works. |
| RpcTransport.TokenStep | dev/apps/electron/src/daemon.ts:464-476 | Each event leaves every id in at most one place and adds at most the next id. |
| RpcEndpoints.DaemonConnection.RejectAll | dev/apps/electron/src/daemon.ts:307-313 | The loop rejects exactly the pending promises, in any order, and empties the map. |
| RpcEndpoints.Daemon.StdinTurn | dev/crates/upriv-daemon/src/main.rs:150-218 | The loop body takes the specified branch: too large, heavy, heavy with a dead worker, light, or shutdown. |
| RpcEndpoints.Daemon.Finish | dev/crates/upriv-daemon/src/main.rs:223-228 | Sentinel, worker loop and join, during which a signal may end the process: unless stdout fails every accepted request is answered exactly when nothing was left with the worker, and always when no signal comes before the drain is through. |
| PipelineRunner.OneAtATime | dev/apps/shared/src/react/useVaultPipelineRun.ts:81-184 | Whatever callbacks do, at most one pipeline is in flight, it is the one shown, and tracked vault ids are distinct. |
| PipelineRunner.SettleIsSound | dev/apps/shared/src/react/useVaultPipelineRun.ts:104-148 | Settling with re-entrant and throwing callbacks keeps the runner's invariant. |
| PipelineRunner.FailKeepsOrderExactly | dev/apps/shared/src/react/useVaultPipelineRun.ts:118-148 | An advancing failure keeps acceptance order and an empty queue at rest exactly when nothing waits, or `onError` neither throws nor starts a vault that is not waiting. |
| PipelineRunner.OrderIsKeptExactly | dev/apps/shared/src/react/useVaultPipelineRun.ts:81-184 | Each event keeps order and rest exactly when it is polite in that sense; a finishing event starts the next waiting job. |
| PipelineRunner.FirstComeFirstServed | dev/apps/shared/src/react/useVaultPipelineRun.ts:81-184 | In polite runs jobs start in acceptance order, started and queued together are the accepted ones, and `run = null` implies an empty queue. |
| PipelineRunner.EveryJobGetsItsTurn | dev/apps/shared/src/react/useVaultPipelineRun.ts:143-184 | The job accepted i-th has started once enough jobs before it were finished or dismissed. |
| PipelineRunner.SomethingFinishes | dev/apps/shared/src/react/useVaultPipelineRun.ts:173-184 | While a job waits, one is in flight or shows an error that can be dismissed. |
| PipelineHook.Hook.ExecuteJob | dev/apps/shared/src/react/useVaultPipelineRun.ts:81-91 | Starting a job takes the next generation and shows the job afresh. |
| PipelineHook.Hook.StartJob | dev/apps/shared/src/react/useVaultPipelineRun.ts:152-171 | A start is accepted exactly when the vault is not tracked; it runs or joins the end of the queue. |
| PipelineHook.Hook.Dismiss | dev/apps/shared/src/react/useVaultPipelineRun.ts:173-184 | Dismissing hides a job in flight, and otherwise starts the next one. |
| PipelineHook.Hook.OnSettled | dev/apps/shared/src/react/useVaultPipelineRun.ts:104-148 | The settling code with its re-entrant callbacks reaches the specified state. |
| PipelineHook.Hook.Failed | dev/apps/shared/src/react/useVaultPipelineRun.ts:118-148 | The catch block, `finally` and what follows reach the specified state. |
| PipelineHook.Hook.IsBusy | dev/apps/shared/src/react/useVaultPipelineRun.ts:192-196 | The scan tells whether the vault is running or queued. |
| PipelineHook.ListsAgree | dev/apps/shared/src/react/useVaultPipelineRun.ts:198-238 | In every run a vault has a list status exactly when it is tracked, and the four id lists agree with the statuses. |
| VaultRootAlias.AliasFile.ReadAlias | dev/crates/upriv-core/src/paths/resolve.rs:268-328 | The line loop gives the specified answer and heals the file exactly as specified. |
| VaultRootAlias.AliasFile.Activate | dev/crates/upriv-core/src/paths/resolve.rs:343-355 | Activation writes the printed file for an acceptable root and leaves the file alone otherwise. |
| VaultRootAlias.AliasFile.Deactivate | dev/crates/upriv-core/src/paths/resolve.rs:362-369 | Deactivation reads and rewrites as specified. |
| VaultRootAlias.ReadUndoesPrint | dev/crates/upriv-core/src/paths/resolve.rs:217-328 | Reading a printed file gives the status and the trimmed path and leaves the file alone. |
| VaultRootAlias.HistoryIsRemembered | dev/crates/upriv-core/src/paths/resolve.rs:217-369 | After any history of activations, deactivations and reads the read gives the last accepted root, trimmed, and its status. |
| VaultRootAlias.RootComesBackExactly | dev/crates/upriv-core/src/paths/resolve.rs:240-328 | A root comes back unchanged exactly when it equals its own trim. |
| VaultRootAlias.SecondReadAgreesExactly | dev/crates/upriv-core/src/paths/resolve.rs:281-328 | Reading any file twice agrees exactly unless the first read heals an unknown status although a later status line said active. |
| VaultRootAlias.HealForgetsActive | dev/crates/upriv-core/src/paths/resolve.rs:288-324 | Counterexamples to a stable answer: such files are answered active and then inactive. |
| Text.ParseU32OfPadded | dev/crates/upriv-core/src/logging/names.rs:5-28 | Parsing a zero-padded decimal gives the number back exactly when it fits in 32 bits. |
| Text.SplitOnceAt | dev/crates/upriv-core/src/logging/names.rs:5-28 | Splitting at the first separator recovers both parts. |
| Text.TrimIdempotent | dev/crates/upriv-core/src/paths/resolve.rs:281-285 | Trimming twice is trimming once. |

## Left out

- LogSteps.WriteFollows: lines get into the file whole, each with its newline; a line torn by a failing write is not modelled, and a character counts as one byte of the buffer.
- LogSteps.OpenFollows: reopening that fails after some stale files were archived is stated by `LogWriter.Logger.ArchiveStale` and `LogWriter.Logger.TryResumeCurrent` only, since a directory the logger produced has one current file.
- LogRuns.RunsAreBounded: a file that is rolled back because the next one cannot be created grows past the threshold, as the code means it to.
- Sequence numbers past the u32 maximum, `min_level`, the `enabled` flag and the check that a vault root exists before the log directory is made.
- `delete_log_files`, `list_log_files` and `read_log_file`: listing and deletion on request, which add only branching on names.
- File names in the log directory that neither parser accepts, which the logger ignores.
- Key derivation, ciphers, HKDF, base64, TOML and serde: library code behind the ideal AEAD and the JSON encoder of `Json`.
- StoreAad.AadIsInjective: strings are sequences of characters; their UTF-8 bytes are not modelled.
- ChunkStore.Store.WriteLogicalFile: input and output errors in the middle of a write, which leave orphan chunks and lose the old contents, are not modelled; the caller seals the index later.
- UUID spellings other than the canonical one, and sealing the index file itself.
- UnlockThrottle.RunKeepsInv: the failure window and the block use one monotone clock; a poisoned lock is not modelled.
- VaultSafety.BusyWithoutAGap: the three reads of the busy check are taken in one state; runs in which marks do not stand are excluded, since it fails in them (`VaultSchedules.OverlappingClosesOpenAGap`).
- VaultSafety.QuietFieldsFrozen: a checked save is one step; runs in which marks do not stand or a rollback removes a loaded vault are excluded, since it fails in them (`VaultSchedules.FailedCreateOrphansASession`).
- VaultSafety.OneCreateWins: removing the directory in a rollback is assumed to succeed.
- VaultProtocol.NeverDeadlocked: the leaf locks (sessions, throttle, closing set, gate map) are held for one step each; poisoned locks are not modelled.
- A session's header, keys and index: the session is its security mode, with the loaded configuration kept beside it for the statements.
- StdoutFraming.FramingIgnoresChunking: an exception thrown while a line is handled interrupts the loop until the next piece; handling is taken to return.
- RpcTransport.PendingIsExact: ids are unbounded, where JavaScript numbers are exact to 2^53; the connection is taken from the moment it is ready.
- RpcTransport.DrainedBeforeExit: a response is one message; bytes of a response cut short by a dying process are not modelled. Malformed request lines do not occur, since the client writes them.
- PipelineRunner.OneAtATime: a `runPipeline` that throws before it returns its promise is not modelled, nor are callbacks that call back into the runner after they returned other than as separate user calls.
- VaultRootAlias.HistoryIsRemembered: absolute paths are those of Unix, paths compare as strings, and write errors are not modelled.
- User interface, settings, vault groups, mobile shells, preload and window code, environment and distribution detection.
