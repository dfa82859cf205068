# editor-mcp process registry and text edit, in Dafny

This project models the bookkeeping core of editor-mcp. editor-mcp is an MCP server that starts background shell processes, keeps their output in bounded buffers, and edits text files. The model is functional. Each entity is an immutable datatype, and each operation is a pure function from the old state and the operation's inputs to the new state and the result. Everything the program asks of the operating system is a parameter:

- spawning a command;
- the outcome of `Wait`;
- signal delivery and pipe writes;
- pid liveness;
- file reads and writes;
- the regular expression engine.

Modules, one file each:

| file | module | models |
|---|---|---|
| `results.dfy` | `Results` | `Option`, `Result`, `Outcome` (an error or nothing) |
| `errors.dfy` | `Errors` | the sentinel errors of `internal/errors.go`, wrapping, and `errors.Is` |
| `output_buffer.dfy` | `OutputBuffers` | `OutputBuffer`: two bounded byte streams addressed by absolute offset |
| `signals.dfy` | `Signals` | `parseSignal` (Unix and Windows builds), `strings.ToUpper`, `strconv.Atoi` |
| `ordering.dfy` | `Ordering` | a total listing order: start time, as the code's comment names, then id, which the model adds; insertion sort and its uniqueness |
| `process.dfy` | `Processes` | the `Process` record, its state, handle flags, `WriteToStdin`, `SendSignal`, `Cleanup` |
| `registry.dfy` | `ProcessRegistry` | the process table and every registry operation as a transition |
| `tools.dfy` | `Tools` | argument normalisation and result derivation of the process tools |
| `lines.dfy` | `Lines` | `strings.SplitAfter(s, "\n")` and the `insert` command |
| `replace.dfy` | `Replace` | the `str_replace` splice and replace-all on given matches |
| `text_edit.dfy` | `TextEdit` | the `text_edit` tool: validation, per-path edits, result aggregation |

How the model represents the program:

- A stream is a `Stream(data, base)`. `data[i]` is the byte at absolute offset `base + i`.
- A Go map's iteration order is an `order` parameter, which must list every key exactly once. Nothing ties the order of one call to that of the next.
- Start times are not stored in the record. A `started` clock parameter gives each id's start time where the sorted listing needs it.
- Go byte strings are `seq<byte>`; names, ids and paths are `string`.
- OS errors arrive as text and become `Errors.Os`, so they are never mistaken for a sentinel error.

A few behaviours of the code are easy to miss, and the model proves them as the code has them:

- A read at or past the end of a stream returns no bytes. Its position is the requested one, moved up to the base, not the end of the stream.
- A read before the base is silently moved forward to the base (`Read` in `internal/process.go`), so reading from offset 0 after eviction returns the oldest retained bytes rather than nothing: after `"hello world\n"` and 150 `'A'` into a 100-byte buffer, reading 50 bytes from 0 gives 50 `'A'`, position 112 and more to come (`OutputBuffers.CapacityScenario`).
- `Cleanup` releases stdin, stdout, stderr and the signal channel, but not the OS process handle. Signals therefore still reach the OS after cleanup, while stdin writes fail.
- Entries loaded from a snapshot have no OS handle. Signalling one reports ProcessNotFound even when its recorded state is Running.
- `TerminateProcessTool` reports `terminated` exactly when the process was running and the signal was sent. Nothing waits for the process to exit.
- `Wait` closes the parent's ends of the stdout and stderr pipes once the child exits. Bytes still in a pipe at that moment are lost. Data the capture worker's `bufio.Scanner` had already read is still split into lines, a final unterminated piece included, and those lines may reach the buffer after the state reads Terminated. The model has them either before the `Monitor` step or not at all: a line arriving after it changes nothing (`ProcessRegistry.NoCaptureAfterExit`).
- `loadFromDisk` does not check `MaxProcesses`: a snapshot larger than the bound is loaded whole (`ProcessRegistry.LoadIgnoresCapacity`).
- `insert` after a line beyond the last complete line appends the text to the end of the file. If the file does not end with a newline, the text joins its last line.

## Model

| member | source | states |
|---|---|---|
| OutputBuffers.NewOutputBuffer | internal/process.go:57-64 | a new buffer has the given capacity and both streams end at offset 0 |
| OutputBuffers.Append | internal/process.go:66-77 | a write moves the logical end forward by exactly the written length, never moves the base back, keeps at most the capacity, and keeps the newest bytes of old-plus-new |
| OutputBuffers.Write | internal/process.go:66-91 | writing one stream appends to it under the shared capacity and leaves the other stream untouched |
| OutputBuffers.Read | internal/process.go:94-151 | a read starts at the position moved up to the base, returns as many bytes as asked for and available, each being the byte at its absolute offset, advances the position by exactly that count, and reports more iff retained bytes remain past it |
| OutputBuffers.AppendAllRetains | internal/process.go:66-77 | after any series of writes, the retained bytes are exactly the tail of everything ever written, at their absolute offsets |
| OutputBuffers.ReadSeesLog | internal/process.go:94-122 | a read returns the slice of the whole written log between its start and the position it reports, whatever has been evicted |
| OutputBuffers.WritesThenRead | internal/process.go:66-151 | from a fresh stream, any series of writes keeps at most the capacity and every read is a slice of the concatenation of all writes |
| OutputBuffers.AppendAllBounded | internal/process.go:71-76 | the retained size never exceeds the capacity across any series of writes |
| OutputBuffers.CapacityScenario | internal/registry_test.go:162-186 | with capacity 100, "hello world\n" reads back whole at position 12; after 150 more bytes the size is 100 with base 62, and a read of 50 from offset 0 returns 50 of the newest bytes and stops at 112 with more to come |
| Signals.Upper | internal/signals_unix.go:16 | upper-casing maps each rune independently and keeps the length |
| Signals.Atoi | internal/signals_unix.go:31-34 | a parsed integer is an optional sign followed by digits only, and lies in the 64-bit range |
| Signals.AtoiItoa | internal/signals_unix.go:31-34 | every 64-bit integer written in decimal parses back to itself |
| Signals.ParseSignalUnix | internal/signals_unix.go:14-39 | each of the seven names in any case gives its signal; otherwise an integer gives that numbered signal; exactly the remaining inputs give the error "invalid signal: " followed by the input |
| Signals.ParseSignalWindows | internal/signals_windows.go:14-35 | SIGSTOP, SIGCONT, SIGUSR1 and SIGUSR2 in any case are refused as not supported on Windows, and no other named signal is ever produced |
| Signals.WindowsAgreesWithUnix | internal/signals_windows.go:16-33 | the Windows parser agrees with the Unix one on every input except the four unsupported names, which only the Unix one accepts |
| Signals.ParseIgnoresCase | internal/signals_unix.go:16 | two inputs that upper-case alike parse to the same signal or both fail, on both builds |
| Signals.NumeralsAreCaseless | internal/signals_unix.go:31-34 | an input that parses as an integer is the only input with its upper case |
| Signals.ParseNumber | internal/signals_unix.go:31-34 | the decimal text of any 64-bit integer parses to that numbered signal |
| Processes.StateFromLabel | internal/process.go:11-18 | the state a label denotes carries exactly that label, and an unrecognised label never yields a state that shares a label with one of the four named states |
| Processes.LabelIdentifiesState | internal/process.go:13-18 | label and state are inverse: distinct states have distinct labels |
| OutputBuffers.SizeAndPosition | internal/process.go:153-165 | the reported size and position add up to the stream's logical end, which is the length of everything ever written to it |
| Processes.SetState | internal/process.go:175-179 | only the state changes, to the given one; the entry is running iff that state is Running |
| Processes.SetExitCode | internal/process.go:189-193 | only the exit code changes, to the given one |
| Processes.Process.IsRunning | internal/process.go:203-206 | an entry is running iff its state's label is "running", which only the canonical Running state carries |
| Processes.WriteToStdin | internal/process.go:209-220 | without a stdin handle the write fails with ProcessNotRunning; otherwise the pipe's own outcome is returned |
| Processes.SendSignal | internal/process.go:223-233 | ProcessNotFound only when there is no OS handle; otherwise the OS outcome |
| Processes.Cleanup | internal/process.go:236-256 | stdin, stdout, stderr and the signal channel are released, the OS handle is kept, and nothing else changes |
| Processes.AfterCleanup | internal/process.go:209-256 | cleanup is idempotent, stdin writes then fail whatever the pipe would say, and signals reach the OS exactly as before |
| ProcessRegistry.PlanCommand | internal/registry.go:106-133 | explicit arguments run the command directly, otherwise `shell -c command`; a supplied environment overlays the inherited one, supplied keys winning; an empty directory inherits |
| ProcessRegistry.StartProcess | internal/registry.go:75-176 | a full table refuses with RegistryFull; every failure leaves the table unchanged; the first failing step of stdin pipe, stdout pipe, stderr pipe (only when capturing) and start is reported with its own message wrapping the OS error; success adds exactly one Running entry with no exit code, shell defaulting to bash, and grows a table without that id by one |
| ProcessRegistry.CaptureLine | internal/registry.go:178-192 | while the pipe is open, a scanned line and its newline are written to the matching stream only, which grows by the line length plus one; otherwise nothing changes |
| ProcessRegistry.CaptureLines | internal/registry.go:182-191 | the scan loop changes only the capturing entry's output, leaves the other stream alone, and changes nothing at all when the pipe is absent or closed |
| ProcessRegistry.CaptureLinesAppends | internal/registry.go:178-192 | while the pipe is open, capturing a series of lines writes each line with its newline to the matching stream in order, and changes no other field or stream |
| ProcessRegistry.CaptureLinesRetains | internal/registry.go:178-192 | capturing a series of lines keeps the stream a window on its earlier log followed by each line plus newline, leaving the other stream and every other field alone |
| ProcessRegistry.NoCaptureAfterExit | internal/registry.go:178-214 | once the exit is seen, a late line from either capture worker changes nothing |
| ProcessRegistry.Monitor | internal/registry.go:195-214 | the entry always becomes Terminated and its stdout and stderr capture ends, as `Wait` closes those pipes; the exit code is 0 after a clean exit, the reported code after an exit error, and left as it was after any other wait failure; no other entry changes |
| ProcessRegistry.GetProcess | internal/registry.go:217-227 | a lookup succeeds exactly for known ids and fails with ProcessNotFound otherwise |
| ProcessRegistry.TerminateProcess | internal/registry.go:262-293 | unknown ids give ProcessNotFound and non-Running entries ProcessAlreadyTerminated; force sends only SIGKILL; otherwise SIGTERM is sent and a deferred kill is scheduled iff it succeeded and the grace period is positive |
| ProcessRegistry.GraceExpired | internal/registry.go:283-290 | when the grace period ends, SIGKILL is attempted iff the entry is still Running |
| ProcessRegistry.SendSignalToProcess | internal/registry.go:296-303 | unknown ids give ProcessNotFound; otherwise the signal goes to the entry whatever its state |
| ProcessRegistry.SendInputToProcess | internal/registry.go:306-317 | unknown ids give ProcessNotFound, non-Running entries ProcessNotRunning, otherwise the stdin write happens |
| ProcessRegistry.StreamNamed | internal/registry.go:328-337 | exactly "stdout" and "stderr" name a stream |
| ProcessRegistry.ReadProcessOutput | internal/registry.go:320-340 | the id is looked up before the stream name is checked, so an unknown id gives ProcessNotFound even with a bad stream; a bad stream gives InvalidInput |
| ProcessRegistry.GetProcessStatus | internal/registry.go:343-384 | a known id reports its record, and the size and position of each stream add up to that stream's logical end |
| ProcessRegistry.CleanupTerminated | internal/registry.go:402-412 | the sweep removes exactly the Terminated entries and leaves every other entry as it was |
| ProcessRegistry.SweepFreesTerminated | internal/registry.go:402-412 | a sweep frees exactly one slot per Terminated entry |
| ProcessRegistry.ExitedEntryIsSwept | internal/registry.go:195-214 | after the monitor sees an exit, the next sweep removes that entry and treats every other entry as it would have anyway |
| ProcessRegistry.SweepIsIdempotent | internal/registry.go:402-412 | a second sweep changes nothing |
| ProcessRegistry.Shutdown | internal/registry.go:533-546 | every entry is cleaned up and none is removed; SIGTERM goes exactly to the Running entries that have an OS handle |
| ProcessRegistry.ShutdownQuiesces | internal/registry.go:533-546 | after shutdown every input is refused (ProcessNotRunning for a known id) and no line is captured any more, while signals reach the OS as before |
| ProcessRegistry.FilterIds | internal/registry.go:234-240 | the filtered ids are exactly the listed ids whose entry matches the state filter, all in the table, and stay distinct |
| ProcessRegistry.Paginate | internal/registry.go:247-256 | the page has min(limit, remaining) elements, the ones from the offset on |
| ProcessRegistry.MatchesFilter | internal/registry.go:237 | an empty or "all" filter matches every entry; any other filter matches exactly the entries in the state it names |
| ProcessRegistry.PagesTile | internal/registry.go:247-256 | two consecutive pages of one and the same sequence together are the page of their combined size |
| ProcessRegistry.ListProcesses | internal/registry.go:230-259 | the total counts every matching entry before paging; the page is exactly the window [offset, offset + limit) of the matching entries in the given iteration order, clamped to the total, so it is empty once the offset reaches the total |
| ProcessRegistry.ListingsTile | internal/registry.go:230-259 | two consecutive listings taken under one and the same iteration order together are the listing of their combined limit; across calls whose orders differ this does not hold (see Findings) |
| ProcessRegistry.UnsortedListingsRepeat | internal/registry.go:230-259 | with two entries and a page size of one, page 1 under one iteration order and page 2 under the other both show the same entry, and the other entry is never shown |
| Ordering.Sort | internal/registry.go:243-244 | the sorted enumeration has the same ids, as many, strictly increasing by start time (the comment's key) and then id (the model's tie-break) |
| Ordering.SortedUnique | internal/registry.go:243-244 | two sorted sequences of the same ids are equal, so the sorted order is independent of the enumeration it came from |
| ProcessRegistry.ListProcessesSorted | internal/registry.go:230-259 | the corrected listing: the matching entries sorted by start time and id, then the window [offset, offset + limit), with the total counting every match |
| ProcessRegistry.SortedListingIgnoresOrder | internal/registry.go:230-259 | the corrected listing is the same under every iteration order of the table |
| ProcessRegistry.SortedListingsTile | internal/registry.go:230-259 | two consecutive corrected listings, each taken under any iteration order, together are the listing of their combined limit, so paging neither skips nor repeats an entry |
| ProcessRegistry.ToInt32 | internal/registry.go:517 | the conversion lands in the 32-bit range and agrees with the input modulo 2^32 |
| ProcessRegistry.LoadEntry | internal/registry.go:479-526 | a recorded Running state survives iff the probe finds the pid alive, and becomes Terminated otherwise; other states are kept; the entry has no handles but the signal channel, and empty buffers |
| ProcessRegistry.LoadFromDisk | internal/registry.go:479-527 | every entry that decodes as an object is placed in the table; the others, and entries already present under other ids, are left as they were |
| ProcessRegistry.LoadedEntriesAreInert | internal/registry.go:485-490 | a loaded entry cannot be signalled (ProcessNotFound) or written to (ProcessNotRunning), whatever the OS would do, and terminating a loaded Running entry fails with ProcessNotFound |
| ProcessRegistry.CapacityRoundTrip | internal/registry.go:75-81 | with room for two, a third start is refused with RegistryFull (the test at internal/registry_test.go lines 242-261); after one exits and a sweep (lines 402-412) runs, a fourth start succeeds |
| ProcessRegistry.StartKeepsCapacity | internal/registry.go:75-81 | a start, whatever the OS reports, never takes the table past MaxProcesses |
| ProcessRegistry.OtherStepsKeepCapacity | internal/registry.go:178-214 | capture, exit, sweep and shutdown never take the table past MaxProcesses |
| ProcessRegistry.LoadIgnoresCapacity | internal/registry.go:457-530 | loading a snapshot does not check MaxProcesses: the table keeps at least one entry per decoded snapshot entry, so a snapshot larger than the bound leaves the table past it |
| Tools.ListReplyIsWindow | internal/tools.go:65-120 | entry i of the reply is the matching entry at position offset + i of the iteration order |
| Tools.UnsortedRepliesRepeat | internal/tools.go:65-120 | with two entries and a limit of one, page 1 under one iteration order and page 2 under the other both show the same entry, and the other entry is never shown |
| Tools.ListProcessesToolSorted | internal/tools.go:65-120 | the corrected reply: the same normalised limit, offset and total, with entries taken from the sorted listing |
| Tools.ListReplyIgnoresOrder | internal/tools.go:65-120 | the corrected reply is the same under every iteration order of the table |
| Tools.NormalizeLimit | internal/tools.go:68-74 | the limit lands in [1, 1000]: non-positive becomes 100, larger values are capped, others are kept |
| Tools.ClampToZero | internal/tools.go:76-79 | a negative list offset becomes 0 and other offsets are kept; the read position of lines 214-217 is normalised the same way |
| Tools.NormalizationIsIdempotent | internal/tools.go:68-84 | the normalised limit, offset, state filter, byte count and grace period are fixed points, so values the tools report back are accepted as they are on the next call (the byte count and grace period normalise at lines 206-212 and 258-262) |
| Tools.NormalizeStateFilter | internal/tools.go:81-84 | an empty state filter becomes "all", others are kept |
| Tools.NormalizeMaxBytes | internal/tools.go:206-212 | the byte count lands in [1, 1 MiB]: non-positive becomes 1024, larger values are capped |
| Tools.GracePeriodSeconds | internal/tools.go:258-262 | a zero grace period becomes 5 seconds, every other value is passed on |
| Tools.StartProcessTool | internal/tools.go:38-62 | an empty command is refused; a start always runs `shell -c command` with no arguments; the tool replies exactly when the registry start succeeds, and every registry error comes back wrapped in "failed to start process" |
| Tools.ListProcessesTool | internal/tools.go:65-120 | the reply carries the normalised limit and offset and the matching total (every entry when no state is given), and its entries are exactly the window [offset, offset + limit) of the matching entries in the iteration order the registry saw |
| Tools.GetProcessStatusTool | internal/tools.go:123-140 | an empty id is refused; an unknown id gives the wrapped ProcessNotFound; a known id gives the registry's status |
| Tools.ReadProcessOutputTool | internal/tools.go:192-240 | the stream is checked before the registry is asked, so a bad stream is refused even for an unknown id; a known id with a valid stream always gets a reply, which reports the registry read with bytes-read equal to the data length, at most the normalised maximum |
| Tools.AddNewline | internal/tools.go:164-171 | one newline is added iff asked for, the data is non-empty and it does not already end with one; the data is kept as a prefix |
| Tools.AddNewlineIdempotent | internal/tools.go:164-171 | adding the newline twice adds it once |
| Tools.SendProcessInputTool | internal/tools.go:143-189 | empty id or input is refused, and so is binary input that does not decode; binary input always gets the newline, text input only when asked; the tool replies exactly when the registry write passes, with bytes-sent the length written, and wraps every write error |
| Tools.TerminateProcessTool | internal/tools.go:243-288 | an unknown id is a wrapped error; for a known id the tool replies exactly when the registry passes or reports ProcessAlreadyTerminated, and wraps every other error; an entry no longer running gets terminated false; a reply says terminated exactly when the process was running, "forced" iff force, and a default grace period schedules the deferred kill |
| Tools.SendSignalTool | internal/tools.go:291-345 | empty id or signal and unparsable signals are refused with the parser's message; for a parsed signal the tool replies exactly when the delivery passes or fails with ProcessNotFound or ProcessNotRunning, so an unknown id or an entry without an OS handle gives sent false; every other failure is wrapped; sent holds iff the signal was delivered |
| Lines.SplitAfter | internal/text_edit.go:135 | the pieces are complete lines followed by one piece without a newline, and joined they give back the text |
| Lines.SplitAfterLength | internal/text_edit.go:135 | a text splits into one piece more than it has newlines |
| Lines.SplitAfterFlatten | internal/text_edit.go:135 | splitting the join of well-formed lines gives back those lines, so splitting and joining are inverse |
| Lines.InsertionPoint | internal/text_edit.go:136-150 | the text goes just after the n-th newline, at the start when n is not positive, and at the end when the file has fewer newlines |
| Lines.InsertAfterLine | internal/text_edit.go:135-150 | the new content is the old content with the text placed at the insertion point |
| Lines.DeleteInserted | internal/text_edit.go:135-150 | removing the inserted text gives back the original file |
| Lines.InsertAfterLines | internal/text_edit.go:135-150 | inserting after line n of a text made of lines puts the text after the first n lines and before the rest |
| Lines.InsertAfterFirstLine | internal/text_edit_test.go:63-84 | inserting after line 1 of a file of two complete lines puts the text between the two lines |
| Replace.Splice | internal/text_edit.go:202-203 | the bytes before the match are kept, the text follows, then the bytes after the match; the length changes by the text length minus the match length |
| Replace.SpliceUndo | internal/text_edit.go:202-203 | splicing the matched bytes back over the inserted text restores the original |
| Replace.ReplaceAll | internal/text_edit.go:198-200 | the new length is the old one plus one text per match minus the matched bytes |
| Replace.ReplaceAllSplicesLast | internal/text_edit.go:198-200 | replacing all matches is splicing the last match and then replacing the earlier ones, so with ReplaceAllNone and ReplaceAllOne the content is fixed: unmatched segments kept in order, the text in place of each match |
| Replace.ReplaceAllNone | internal/text_edit.go:198-200 | with no match the text is unchanged |
| Replace.ReplaceAllOne | internal/text_edit.go:198-204 | with a single match, replacing all and splicing agree |
| Replace.ReplaceAllSame | internal/text_edit.go:198-200 | replacing every match with the very bytes it matched changes nothing |
| TextEdit.Lower | internal/text_edit.go:60 | lower-casing maps each rune independently and keeps the length |
| TextEdit.ParseCommand | internal/text_edit.go:60-91 | create, insert and str_replace are recognised exactly when the name lower-cases to them |
| TextEdit.Validate | internal/text_edit.go:50-91 | empty command, paths and text are refused first, with their messages; validation passes exactly for a known command whose optional arguments are allowed and whose pattern compiles; an unknown command is named in the error |
| TextEdit.ValidateIgnoresCase | internal/text_edit.go:60 | two spellings of a command that lower-case alike are accepted alike, as the same command |
| TextEdit.WriteFile | internal/text_edit.go:111-117 | a write succeeds exactly when the path is not a directory and the OS allows it, and changes only that file |
| TextEdit.Dir | internal/text_edit.go:104 | the parent of a path without a slash is "." |
| TextEdit.DirOfJoin | internal/text_edit.go:104 | the parent of dir/name is dir, for a plain file name and a non-empty dir without a trailing slash; unlike Go, the rest of dir is not cleaned (see Left out) |
| TextEdit.EditPath | internal/text_edit.go:100-215 | a failed path writes nothing; create needs a directory parent and then holds exactly the text; insert places the text after the requested line; str_replace refuses zero matches, or several without replace_all, and otherwise replaces every match, reporting the match count and the length change |
| TextEdit.EditAll | internal/text_edit.go:93-216 | one result per path, in path order, and only the listed paths are written |
| TextEdit.AllFailedWritesNothing | internal/text_edit.go:106-194 | when every path fails, the file system is unchanged |
| TextEdit.EditedPathsExist | internal/text_edit.go:111-214 | a path edited successfully is a file when the loop ends |
| TextEdit.AnyError | internal/text_edit.go:228-235 | true iff some result has status error |
| TextEdit.TextEditTool | internal/text_edit.go:40-226 | a failed validation touches nothing and reports its message; otherwise one result per path in order, with the error flag set iff some path failed |
| TextEdit.InsertWithReplaceAllRefused | internal/text_edit_test.go:87-103 | insert, spelt in any case, with replace_all is refused with the replace_all message before any file is looked at |
| TextEdit.UnknownCommandRefused | internal/text_edit_test.go:228-239 | any name that is no command in any case is refused as an invalid command, named in the message |

## Findings

| source | as written | input that shows it | evidently intended | confidence | as-written member | corrected member |
|---|---|---|---|---|---|---|
| internal/registry.go:230-259 | the matches are paged in the iteration order of the Go map; the sort announced at lines 243-244 is never done, and map order may differ between calls | two entries `a` and `b`, limit 1: offset 0 under order `a, b` and offset 1 under order `b, a` both return `a`, and `b` is never listed | sort the matches by start time before paging, so consecutive pages tile; the comment names start time only, and the tie-break by id is the model's, to make the order total | not executed | ProcessRegistry.UnsortedListingsRepeat | ProcessRegistry.ListProcessesSorted |
| internal/tools.go:87 | the tool replies with the registry's unsorted page, so its replies follow the map's iteration order | the same two entries through the tool with no state filter, limit 1: offset 0 under order `a, b` and offset 1 under order `b, a` both reply with `a` | reply with the sorted page | not executed | Tools.UnsortedRepliesRepeat | Tools.ListProcessesToolSorted |

`Tools.ListProcessesTool` and `ProcessRegistry.ListProcesses` model the code as written. `ProcessRegistry.SortedListingsTile` proves that the corrected pages tile whatever iteration order each call sees, and `Tools.ListReplyIgnoresOrder` that the corrected reply does not depend on it.

## Left out

- Concurrency: goroutines, mutexes and the periodic `cleanupLoop`. Each registry operation is one atomic transition, so races between a monitor and a tool call are not represented. The race between a capture worker and `Wait` is represented only by the order of `CaptureLine` and `Monitor` steps: lines captured before `Monitor` are kept, and lines after it are dropped. In the code, lines the scanner had already buffered when `Wait` closed the pipe are still written after the state reads Terminated; the model places them before `Monitor`.
- Time: runtimes, tickers and the sleep before the deferred kill. Start times are not fields of the record; the sorted listing takes them from its `started` parameter. `GraceExpired` models the check made when the sleep ends.
- Persistence: `saveToDisk`, and the JSON decoding and file reading of `loadFromDisk`. `LoadFromDisk` starts from the decoded entries. A float pid or exit code is taken as already converted to `int`.
- CPU and memory sampling in `GetProcessStatus`, and `NewRegistry`, which only starts the cleanup loop and loads the snapshot.
- `bufio.Scanner` details: the 64 KiB token limit and `\r` handling. Capture is modelled as a series of already scanned lines.
- The regular expression engine. Compilation is a given outcome, and matching is a given `Matcher` returning ordered, non-overlapping spans.
- Replace.ReplaceAll: inserts the text literally; `$` expansion in `ReplaceAllString` is not modelled.
- Base64 decoding in `SendProcessInputTool`. It is a given outcome.
- `internal/server.go` (the synchronous `ExecuteShell`), `main.go`, the global registry, tool definitions and JSON rendering of replies.
- The `view` command exercised by the text-edit tests. The code has no such command and treats it as an invalid command.
- Cancellation of the request context in the text-edit path loop.
- The request context of `StartProcess`. The child is created with `exec.CommandContext` (internal/registry.go:110 and 113, with the tool's context from internal/tools.go:44), so the OS kills it when that context is done. The model sees such a kill only as one more `Wait` outcome given to `Monitor`.
- TextEdit.Dir: applies only the part of `filepath.Clean` that drops trailing slashes; `.` and `..` components and doubled inner slashes are not normalised.
- TextEdit.DirOfJoin: inherits that gap. Go's `filepath.Dir` of `a//b/name` is `a/b` and of `./a/name` is `a`, while the model gives back the unclean dir.
- Signals.Upper: maps only the runes whose upper case is ASCII, because only those can change a comparison with a signal name.
- TextEdit.Lower: maps only the runes whose lower case is ASCII, for the same reason.
- Tools.GracePeriodSeconds: keeps the grace period in seconds; the overflow of `time.Duration(n) * time.Second` for huge values is not modelled.
- Integer widths: ids, pids, positions and counts are unbounded integers. `maxBytes`, the buffer capacity, and the `limit` and `offset` of `ListProcesses` and `Paginate` are non-negative, because negative values make the Go slice operations panic. The tool normalises limit and offset before calling the registry, so that panic cannot be reached through it.
- Windows: only `parseSignal` of the Windows build is modelled. The tool's inline signal switch is the Unix one.
- TextEdit.WriteFile: a write that fails after the stat check is a given per-path error; file modes are not modelled.
