# Verified model of the trace pipeline and its surroundings

A browser-based lab console streams the behaviour events of virtual machines to its users. This project
models, in Dafny, the live trace pipeline of that console and the parts it rests on, and proves what the
pipeline promises.

The path of one event:

1. A guest writes newline-delimited JSON; the gateway tails it over SSH with a quoted path
   (`ShellQuote.dfy`), on a target the runtime has found ready (`Config.dfy`, `Polling.dfy`, `Fleet.dfy`,
   `Qemu.dfy`).
2. The gateway cuts the byte stream into lines (`LineFraming.dfy`), holds them in a bounded queue that drops
   its oldest line when full (`DropQueue.dfy`), and a single writer sends them to the WebSocket, reporting how
   many lines were dropped. Three goroutines share the queue, an atomic counter and a `sync.Once`
   (`TraceBridge.dfy`).
3. The browser's worker appends every frame to a capture file with a size ceiling, counts heartbeats and
   drop reports, and hands the rest to the page in batches (`TraceWorker.dfy`).
4. The page keeps a window of 5000 items and a filtered display of 2000 rows, updated incrementally and
   rebuilt when a filter changes (`TracePane.dfy`).

`BridgeHistory.dfy`, `TerminalHistory.dfy` and `FleetHistory.dfy` tie each reachable state to the actions of
the run that led there: what came in, what was dropped, what closed, and why. `EndToEnd.dfy` puts 2, 3 and 4
together. `Terminal.dfy` models the other channel, the interactive terminal, over
both of its hops. `Base64Size.dfy` covers the payload size hint.

## How it is modelled

Concurrent code is a transition system: a `State`, an `Action` for each operation a goroutine can be
interrupted after, a partial function `Next`, and `Follow` (in `Common.dfy`) for whole runs. The invariant `Inv` is proved for
every step, and the theorems are about every reachable state and every run. In the bridge, the send attempt,
finding the queue full, the eviction, the `dropped.Add(1)` after it, the writer's receive, its `Load`, the
report, the line, and each close are separate steps. Lines carry their position in the stream.

Statements that something can move count only steps that wait for nobody outside: a write to an open session
or an open browser may block for as long as that end likes, and a write between the gateway and the BFF until
the other side reads.

Code that updates objects is a class: `LineReader` over a fixed buffer, `DropOldestQueue` over a ring of
slots, `Worker`, `Pane`, `Runtime`. The state of each is tied to a plain sequence: everything read, sent,
received or shown. `DropOldestQueue.EnqueueDropOldest` runs against a writer that takes any number of lines
between its channel operations. In `Worker`, `posts` is what has been posted to the page.

The clock, probe answers, launch and stop results, JSON decoding, and the outcome of socket operations are
parameters or free choices of an action.

## What the code does not promise

- **The drop report can lag by one.** The eviction and the counter's increment are two operations, and the
  writer can load the counter between them. The line just received may then be preceded by one line that
  neither arrived nor was reported. `TraceBridge.TheCountCanLag` is such a run, and
  `TraceBridge.GapAccounting` says exactly when the count is complete.
- **Teardown can be held up.** `bridge` and `relay` are documented to return once either side closes, but a
  goroutine in a blocked write notices no close elsewhere, and no write has a deadline. If the session takes
  no input, the browser's close reaches the relay and not the bridge (`Terminal.SessionCanHoldUpTeardown`);
  if the browser takes no output, the session's end reaches the bridge and not the relay
  (`Terminal.BrowserCanHoldUpTeardown`). Those two are the only exceptions: `Terminal.TeardownTerminates`
  has all four goroutines exit if and only if neither write blocks.
- **The display counter wraps.** The worker stores the reported count with `| 0`, which is exact only below
  2^31 (`TraceWorker.Int32Exact`).
- **Rebuilding can forget.** Rows stay displayed while their items leave the 5000-item window, so a rebuild
  under the same filter can show less: always the end of what was shown
  (`TracePane.IncrementalAgainstRebuilt`, `TracePane.RebuildCanForget`).
- **The index finds the last target of an id, a search the first.** They agree on every id exactly when ids
  are unique, which validation ensures (`Config.IndexAgreement`).

Where the documents and the code differ the model follows the code: section 13 of `DESIGN.md` has the
capture watch `navigator.storage.estimate()` and drop its oldest bytes, while the worker compares against a
constant and drops the whole file; and the "full, unabridged stream" kept by the capture also includes the
gateway's drop reports.

## Model

| member | source | states |
|---|---|---|
| LineFraming.RecordsOfAppend | internal/gw/tracebridge.go:64-79 | framing is compositional: whatever ends with a line feed is framed independently of what follows |
| LineFraming.FramingInvertsJoining | internal/gw/tracebridge.go:64-79 | joining records with line feeds and framing again gives them back if and only if each is non-empty, newline-free and does not end in CR |
| LineFraming.RecordsAreFramable | internal/gw/tracebridge.go:67-68 | every line framing produces is non-empty, newline-free and does not end in CR |
| LineFraming.TrimCutsTerminators | internal/gw/tracebridge.go:68 | trimming removes from the end all CR and LF and nothing else; nothing is left exactly when there was nothing else |
| LineFraming.FittingIsExact | internal/gw/tracebridge.go:69-73 | the lines kept are exactly those of at most 262144 bytes |
| LineFraming.RecordsOfNext | internal/gw/tracebridge.go:66-79 | each line read, terminated or final, adds what trimming leaves of it and nothing else |
| LineFraming.ByteStream.Read | internal/runtime/trace.go:149-150 | a read hands out the next bytes of the stream in order, at most a buffer's worth; the end or failure of the stream is reported with the last bytes or by a read of its own |
| LineFraming.LineReader.ReadBytes | internal/gw/tracebridge.go:64-66 | over a fixed buffer refilled by reads of any size, the result is the next line with its terminator, or at the end all that is left; no byte is lost or repeated, also when the last bytes came together with the error |
| LineFraming.LineReader.FindNewline | internal/gw/tracebridge.go:66 | the first line feed among the bytes that have arrived |
| LineFraming.Reassemble | internal/gw/tracebridge.go:61-80 | for every split of the stream into reads, the lines kept are the trimmed, non-empty lines of the whole stream within the 256 KiB cap, and the rest are counted |
| TraceBridge.Conservation | internal/gw/tracebridge.go:61-98 | in every reachable state each line read is written, held by the writer, queued, held by the producer, counted as dropped, or the one shed but uncounted; what is on its way is unaltered and in stream order |
| BridgeHistory.EveryByteIsFramed | internal/gw/tracebridge.go:64-66 | over every run, bytes framed and bytes waiting are together exactly what the guest sent |
| BridgeHistory.AllThatFitIsQueued | internal/gw/tracebridge.go:66-73 | over every run, the lines put on the queue and the one about to be are exactly the stream's lines within the cap, in order |
| BridgeHistory.DroppedForCause | internal/gw/tracebridge.go:69-73 | over every run, a dropped line was over-long, or was evicted as the oldest right after the queue had been found to hold 1024 |
| BridgeHistory.ClosedForCause | internal/gw/tracebridge.go:51-98 | over every run, the watcher has left exactly when the browser's side failed, the producer has seen the end exactly when a read did, the writer has left exactly when a write failed or the queue ended; only the first, the second or a failed write starts the closing |
| TraceBridge.GapAccounting | internal/gw/tracebridge.go:66-98 | events before event line i plus the last reported count are at least i-1 under every interleaving, and at least i unless an eviction awaited its count at the writer's load (an over-long line that does is no exception), with the exact condition; the reported lines are distinct and really dropped |
| TraceBridge.TheCountCanLag | internal/gw/tracebridge.go:104-116 | a run in which line 1 is delivered while line 0 is neither delivered nor reported |
| TraceBridge.ReportsIncrease | internal/gw/tracebridge.go:85-94 | reported counts are positive, strictly increase and never pass the counter |
| TraceBridge.EnqueueIsBounded | internal/gw/tracebridge.go:104-116 | for every interleaving with the writer, the send needs at most two passes and one eviction; nothing is sent on or closes the closed queue |
| TraceBridge.ProducerNeverWaits | internal/gw/tracebridge.go:65-79 | the guest is never held up: in every reachable state, with the writer standing still, the producer is done with its line after at most four operations of its own |
| TraceBridge.NeverStuck | internal/gw/tracebridge.go:51-98 | no deadlock: some goroutine can move without help from the guest or the browser, unless all are done, or nothing has closed and all that is left is to wait for a line, for the browser, and for any write the browser holds up |
| TraceBridge.TeardownTerminates | internal/gw/tracebridge.go:37-43 | once any goroutine has exited, every continuation is bounded by a measure of what is left, ends with all three gone, and stream and WebSocket were closed exactly once |
| TraceBridge.ClosedAtMostOnce | internal/gw/tracebridge.go:38-43 | in every reachable state neither is closed twice, the WebSocket never before the stream |
| TraceBridge.LoadAccounts | internal/gw/tracebridge.go:86-88 | at the writer's load, the position of the line in hand is the events sent plus the earlier lines counted plus the earlier line shed and not yet counted; without an eviction under way there is none of the last kind |
| TraceBridge.StepKeeps | internal/gw/tracebridge.go:36-117 | every step of every goroutine keeps framing, queue, pipeline, reporting and teardown invariants |
| DropQueue.DropOldestQueue.TrySend | internal/gw/tracebridge.go:106-108 | appends the line, or reports that the queue was full and changes nothing |
| DropQueue.DropOldestQueue.TryReceive | internal/gw/tracebridge.go:110-113 | takes the oldest line, or none if the queue is empty |
| DropQueue.DropOldestQueue.EnqueueDropOldest | internal/gw/tracebridge.go:104-117 | however the writer interleaves: the queue is always the most recently sent lines, nothing but the one evicted line is lost, and it says exactly when there is an eviction or a second pass |
| TraceWorker.Worker.WritePending | web/trace-worker.js:175-178 | writing batch by batch at the moving offset appends exactly the buffered bytes |
| TraceWorker.Worker.Rotate | web/trace-worker.js:170-174 | empties the file and tells the page; the capture now stands for the log from the first line still buffered, and what it has lost is accounted for by the files given up |
| TraceWorker.Worker.Flush | web/trace-worker.js:166-183 | afterwards the file is the joined lines of the log from its base; exactly when file and buffer together pass the ceiling, the lines before the buffer are lost and one rotation is posted |
| TraceWorker.Worker.Persist | web/trace-worker.js:158-164 | adds the line to the log the capture stands for; flushes exactly when the buffer is full or the last flush is long enough ago, and otherwise only buffers; loses older lines exactly when that flush is due to rotate |
| TraceWorker.Worker.Dispatch | web/trace-worker.js:106-144 | each frame updates the counters or joins the display feed as its kind says |
| TraceWorker.Worker.HandleLine | web/trace-worker.js:102-145 | capture, feed and counters stay functions of the list of received frames; lines are lost exactly when the flush is due to rotate; reports and heartbeats post the new counters |
| TraceWorker.Worker.QueueDisplay | web/trace-worker.js:187-190 | what was posted and what is buffered, together, grow by exactly this item; the batch is posted exactly when 33 ms have passed since the last |
| TraceWorker.Worker.ForwardBatch | web/trace-worker.js:192-197 | posting a batch loses, repeats and reorders nothing |
| TraceWorker.Worker.Tick | web/trace-worker.js:48-51 | after the timer everything received for display has been posted and the file holds the whole log from its base; nothing is posted or lost but the batch and, exactly when due, one rotation |
| TraceWorker.Worker.Export | web/trace-worker.js:205-215 | posts exactly the received lines from the capture's base, each terminated, or says that there is no capture |
| TraceWorker.Worker.CloseStream | web/trace-worker.js:217-233 | flushes before giving the file up, so the file holds the whole log from its base, which moves exactly when a rotation is due |
| TraceWorker.Worker.OpenStream | web/trace-worker.js:53-61 | a new subscription starts from zero counters with the old capture flushed and released; display items already received stay in the feed |
| TraceWorker.Worker.OpenHandle | web/trace-worker.js:66-78 | afterwards the capture stands for the empty log, in an empty file, or there is none |
| TraceWorker.Worker.OnOpen | web/trace-worker.js:83-86 | a successful connection resets the backoff |
| TraceWorker.Worker.OnClose | web/trace-worker.js:88-98 | the page is told that the connection is down and the tracer not alive; the delay before reconnecting is that of the number of closes in a row; none when the page closed the stream |
| TraceWorker.BackoffDoubles | web/trace-worker.js:94-97 | closed form of the delay: 500 ms times a power of two, capped at 10 s |
| TraceWorker.Int32Exact | web/trace-worker.js:115 | the stored count equals the reported one if and only if that fits 32 signed bits, and is off by a multiple of 2^32 otherwise |
| TraceWorker.ItemCarries | web/trace-worker.js:130-144 | an item shows the event's own raw text, name, process and line; one that does not parse shows as its text |
| TraceWorker.ShownExactly | web/trace-worker.js:106-144 | every received frame but reports and heartbeats is shown, once, in order, and nothing else |
| TraceWorker.LastReportCounts | web/trace-worker.js:114-118 | the relay counter is that of the last report, wherever it stands |
| TraceWorker.LastTotalCounts | web/trace-worker.js:125 | the tracer's counter is that of the last heartbeat that carries one |
| TraceWorker.EmittedAdds | web/trace-worker.js:124 | the emitted counter adds up over any split of what was received |
| TraceWorker.EmittedOfOne | web/trace-worker.js:124 | a heartbeat counts its own delta, any other frame nothing |
| TraceWorker.HoldsLogIsConcat | web/trace-worker.js:158-183 | file followed by buffer is the joined lines of the log from the base |
| TracePane.IncrementalAgainstRebuilt | web/index.html:544-568 | the rebuilt display is always a suffix of the incremental one; they are equal if and only if no match has left the window or the window still holds a full display of matches |
| TracePane.RebuildCanForget | web/index.html:544-568 | a display of one row that a rebuild would empty |
| TracePane.ShellSwitch | web/index.html:475 | `execve` and `execveat` are kept whatever the shell switch says; with it on, everything else of a shell is hidden, and nothing of any other process |
| TracePane.TypeSwitch | web/index.html:474 | a type is hidden exactly when switched off, whatever the other switches say |
| TracePane.TextSwitch | web/index.html:476 | the text filter passes exactly the items in whose line the typed text stands somewhere, letter by letter, ASCII case aside |
| TracePane.DisplayOfAppend | web/index.html:549-553 | appending the new matches and trimming shows what the longer list would |
| TracePane.TailFound | web/index.html:559-563 | walking back until 2000 matches are found gives the last matches of the window |
| TracePane.Pane.DisplayAgainstRebuilt | web/index.html:544-568 | for every reachable pane that is not paused, the same relation between its rows and a rebuild |
| TracePane.Pane.AppendTraceLines | web/index.html:544-555 | the window takes the batch always, the display unless paused; both stay what the full history says |
| TracePane.Pane.Remember | web/index.html:545-546 | the window is the last 5000 of everything received |
| TracePane.Pane.AppendRows | web/index.html:549-552 | the rows added are exactly the matching lines, in order |
| TracePane.Pane.TrimRows | web/index.html:553 | only the oldest rows go, down to 2000 |
| TracePane.Pane.Rerender | web/index.html:558-568 | the rows are the last 2000 matches of the window under the current filters |
| TracePane.Pane.ClearTraceLog | web/index.html:569 | window and display are empty and the history starts over |
| TracePane.Pane.TogglePause | web/index.html:586-591 | pausing changes no row; resuming shows what arrived meanwhile |
| TracePane.Pane.ToggleRaw | web/index.html:593-597 | the same items, rendered the other way |
| TracePane.Pane.ToggleShell | web/index.html:598-602 | only the shell filter changes, and the display is rebuilt under it |
| TracePane.Pane.SetFilter | web/index.html:603-606 | only the text filter changes, to what was typed, trimmed and in lower case, and the display is rebuilt under it |
| TracePane.TrimKeeps | web/index.html:604 | trimming takes white space off the ends and nothing else |
| TracePane.Pane.SetType | web/index.html:626 | only this type's visibility changes, and the display is rebuilt under it |
| EndToEnd.ReceivedIsCapped | internal/gw/tracebridge.go:69-73 | every frame bridges send, over any number of connections, keeps the cap the worker's size bounds assume, and survives joining and framing |
| EndToEnd.EventIsARecord | internal/gw/tracebridge.go:95 | an event frame is one line of the guest's stream, byte for byte |
| EndToEnd.GapsAreExplained | web/trace-worker.js:114-118 | in every run, from what the browser has received: non-report frames before line i plus the displayed relay counter are at least i-1, and at least i unless an eviction awaited its count; the counter never passes the lines really dropped |
| EndToEnd.CaptureReframes | web/trace-worker.js:12-16 | fed by bridges over any number of connections: the write buffer has never passed 64 KiB + 256 KiB, the file is at most 512 MiB, every file given up was within the buffer bound of that and announced; the bytes lost since the open are exactly those of the files given up, and framing what is held gives exactly the lines received since |
| EndToEnd.DisplayFollowsTheStream | web/trace-worker.js:102-145 | everything given to the display is the text of distinct lines of the guest's stream, in stream order |
| EndToEnd.RowsFollowTheStream | web/index.html:463 | from guest to screen, however the pane was paused, filtered, cleared or rebuilt: its rows are distinct lines of the guest's stream in stream order, each passing the filter, and every matching line it was asked to show since the last rebuild is among them unless older than all 2000 |
| Config.Validate | internal/runtime/config.go:95-131 | accepts exactly the well-formed configurations; otherwise reports the first fault in order |
| Config.SoundIsComplete | internal/runtime/config.go:102-117 | no fault found so far is the same as all targets so far being complete with distinct ids |
| Config.IndexFindsLast | internal/runtime/qemu.go:100-104 | the index has an entry for every id, and it is the last target with that id |
| Config.IndexAgreement | internal/runtime/qemu.go:100-104 | looking up any id equals searching the list if and only if ids are unique |
| Config.ValidatedIndexAgrees | internal/runtime/config.go:107-110 | after validation the index can be trusted |
| Polling.PollReady | internal/runtime/qemu.go:140-161 | at most timeout/interval + 2 probes; ready, error or no outcome in exactly the stated cases, error only with a clock reading past the deadline after a failed probe |
| Polling.FailedProbesTakeTime | internal/runtime/qemu.go:142-158 | with a ticker that buffers one tick, a probe that leaves time for another is among the first timeout/interval + 1 |
| Polling.BoundIsTight | internal/runtime/qemu.go:142-158 | surroundings in which the bound is met |
| Fleet.ShutdownConserves | internal/runtime/qemu.go:214-235 | over any sequential or concurrent Shutdown calls: no process is stopped twice, or before every poller has exited; when all calls have returned each launched process was stopped exactly once; `done` is closed at most once |
| Fleet.ShutdownReports | internal/runtime/qemu.go:228-234 | each call returns the first error in configuration order among the processes it took, and has stopped all of them |
| Fleet.FirstErrorIsFirst | internal/runtime/qemu.go:228-234 | which error that is |
| FleetHistory.ReportsWhatStopsReturned | internal/runtime/qemu.go:228-234 | a call that has returned has made one stop for each process it took and reports the first error those stops returned, whatever other calls did |
| Fleet.ShutdownNeverStuck | internal/runtime/qemu.go:214-235 | an unfinished call can always move, or a poller it waits for can without a tick |
| Fleet.TicksAreBounded | internal/runtime/qemu.go:142-159 | with the clock and ticker of module Polling, a poller of the fleet receives at most timeout/interval + 1 ticks in any run |
| Fleet.RunsAreBounded | internal/runtime/qemu.go:123-235 | in real time nothing polls for ever: any run is bounded by the targets, the timeout over the interval and the calls made, so a Shutdown that is never stuck comes to its end |
| Fleet.StatusSettles | internal/runtime/qemu.go:140-167 | over every continuation, ready and error are absorbing and the configuration never changes |
| Fleet.StatusHasCause | internal/runtime/qemu.go:146-154 | over every run, a target is ready only after a probe that answered, and a launched one in error only after a failed probe followed by a clock reading past the deadline |
| FleetHistory.ExitedWithOutcome | internal/runtime/qemu.go:146-160 | over every run, once a poller has exited its target is ready if and only if a probe answered, in error if and only if the clock was read past the deadline, and otherwise booting, only after a shutdown had begun |
| FleetHistory.PollerRefines | internal/runtime/qemu.go:140-161 | whatever else goes on, a poller of the fleet leaves the status `pollReady` sets in the same surroundings, after as many probes |
| FleetHistory.DoneForCause | internal/runtime/qemu.go:215 | `done` is closed if and only if a Shutdown call closed it |
| Fleet.OpenedWhileReady | internal/runtime/qemu.go:171-210 | a session or stream is only opened for the requested id, while that target is ready, a stream only if tracing is enabled; the table stays in configuration order |
| FleetHistory.RequestAnswered | internal/runtime/qemu.go:171-209 | whatever happens between a request's two steps, it opens the last target of its id if and only if that was ready when it looked and, for a trace, tracing is enabled; otherwise it is refused |
| Fleet.StepKeeps | internal/runtime/qemu.go:123-235 | every step keeps table, pollers, calls and requests consistent |
| Qemu.Runtime.constructor | internal/runtime/qemu.go:100-105 | list and index share their entries, in configuration order, all booting |
| Qemu.Runtime.Targets | internal/runtime/qemu.go:110-118 | every target once, in configuration order, with its status |
| Qemu.Runtime.EnsureStarted | internal/runtime/qemu.go:123-137 | every target is launched whatever happens to the others; the table and the pollers are those the transition system starts from |
| Qemu.Runtime.SetStatus | internal/runtime/qemu.go:163-167 | changes this row's status only, seen through list and index alike |
| Qemu.Runtime.Attach | internal/runtime/qemu.go:171-186 | unknown exactly when no target has the id; otherwise dials the last such target's configuration exactly when it is ready, and reports its own status when not; in agreement with the transition system |
| Qemu.Runtime.TraceStream | internal/runtime/qemu.go:192-210 | the same for the trace, and only when tracing is enabled |
| Qemu.Runtime.Collect | internal/runtime/qemu.go:218-226 | takes exactly the owned processes, in order, and leaves none behind |
| Qemu.Runtime.Shutdown | internal/runtime/qemu.go:214-235 | stops every owned process in order and returns the first error |
| Qemu.StopAll | internal/runtime/qemu.go:228-234 | a failing stop does not keep the later ones from being stopped |
| ShellQuote.ReadQuoted | internal/runtime/trace.go:178-181 | by sections 2.2.1 and 2.2.2 of the Shell Command Language, a quoted string adds exactly itself to the word being read, wherever it stands |
| ShellQuote.QuoteRoundTrip | internal/runtime/trace.go:178-181 | the shell reads a quoted string back as exactly one word, the string |
| ShellQuote.CommandWords | internal/runtime/trace.go:128 | for every configured path the command is read as exec, tail, -F, -n0 and the path |
| Base64Size.EncodeShape | web/trace-worker.js:273-277 | length and padding of the encoding of section 4 of RFC 4648 |
| Base64Size.DecodeEncode | web/trace-worker.js:273-277 | the encoding the hint is checked against can be taken back, for every byte string |
| Base64Size.B64LenIsExact | web/trace-worker.js:273-277 | the size hint equals the number of bytes encoded |
| Terminal.OutputIsTransparent | internal/gw/bridge.go:31-45 | in every reachable state of both hops, the browser has been handed non-empty binary frames of at most 32 KiB that together are a prefix of the session's output, however it was read |
| Terminal.InputIsTransparent | internal/gw/bridge.go:49-68 | the session saw the browser's frames in order: the operations of the first frames, and at most the start of one more; its bytes are a prefix of the browser's, and its resizes have the columns, rows and preceding bytes of the requests |
| Terminal.WrittenOfOps | internal/gw/bridge.go:54-67 | the session's bytes are the binary frames' bytes, control frames adding none |
| Terminal.ResizesOfOps | internal/gw/bridge.go:59-66 | the session is resized as often as the browser asks, to the columns and rows it asks for, each time after exactly the bytes that came before the request |
| TerminalHistory.EndsAgree | internal/bff/relay.go:18-44 | in terms of the run alone: the browser was handed a prefix of what the session printed, the session a prefix of the bytes the browser sent, with the resizes among them |
| TerminalHistory.ClosedForCause | internal/gw/bridge.go:31-68 | over every run, a loop ends if and only if one of its reads or writes failed, and a side closes only after that; malformed frames, resizes and empty reads close nothing |
| Terminal.TeardownPropagates | internal/bff/relay.go:18-44 | if no goroutine of either hop can move, all four have exited, or nothing was closed and all wait for input, or a write to the open session or the open browser is blocked |
| Terminal.SessionCanHoldUpTeardown | internal/gw/bridge.go:49-58 | a run after which browser and relay are gone and the bridge stays in a write to the session, nobody able to move |
| Terminal.BrowserCanHoldUpTeardown | internal/bff/relay.go:33-43 | a run after which session and bridge are gone and the relay stays in a write to the browser, nobody able to move |
| Terminal.TeardownTerminates | internal/gw/bridge.go:19-28 | once a goroutine of either hop has begun to close, the rest of the run is bounded by the work left and what still comes in -- nothing, after session and browser are closed; and when nobody can move, all four have exited if and only if neither the session nor the browser blocks a write |
| Terminal.WorkBoundsRuns | internal/gw/bridge.go:31-68 | any run, from any state, is as long as the work left at its start and the frames and reads coming in allow |
| Terminal.ClosedOnce | internal/bff/relay.go:19-25 | session and WebSockets are each closed at most once, in order, and exactly once when a goroutine of that side has exited |
| Terminal.PumpOutput | internal/gw/bridge.go:31-45 | with one reused buffer, the frames written are the output read so far; after a failed write only that chunk is lost |
| Terminal.PumpInput | internal/gw/bridge.go:48-68 | malformed and other control frames are skipped; it ends early exactly at the first write that fails, and of that frame the session saw only a start; resizes have the columns, rows and preceding bytes requested |
| Terminal.StepKeeps | internal/bff/relay.go:33-44 | every step of both hops keeps every frame in exactly one place, in order, and the teardown invariant |

## Left out

- SSH, PTY setup, QEMU launch, HTTP and WebSocket upgrade, provisioning: streams, sockets, probes and processes are abstract, and after a close operations on the closed end fail.
- JSON: the worker receives messages already classified; values that are not objects are not modelled. A drop report is taken to be a short one-line object that reads back as itself, an event line not to be a report, and encoding a report not to fail.
- LineFraming.ByteStream.Read: does not model a read that returns no bytes and no error, nor the buffered reader giving up after a hundred of them; `io.Reader` discourages such reads. Which error ends the stream is not distinguished, as in the code.
- The Go library's `bufio.Reader` is represented by `LineReader`, whose buffer does not slide: it is refilled only when empty.
- Delivery of lines still queued at the end of the stream: the producer closes the queue and then the WebSocket, so they may be lost, and drops after the last line delivered are never reported. No claim is made about them.
- The 64-bit width of the drop counter, and JavaScript doubles as counters: both are unbounded here; the truncation to 32 bits is modelled.
- One live trace socket across target switches, two overlapping `openStream` calls, and drop counts across reconnects: the gateway's counter starts at zero with each connection. `GapsAreExplained`, `DisplayFollowsTheStream` and `RowsFollowTheStream` are about the first connection.
- A network connection that hangs so that closing it or sending a resize blocks: both complete in the model.
- Failing file operations, browser quotas, and text decoding: writes succeed, and text is its bytes.
- TracePane.LowerCase: `toLowerCase` on ASCII letters only.
- TracePane.TrimKeeps: `trim` on blank, tab, line feed and carriage return only.
- Formatting, colours, icons, scrolling, DOM structure: a row is its item and whether it is shown raw.
- A second `EnsureStarted`: the program calls it once.
- Qemu.Runtime.Shutdown: one call at a time and after the pollers have exited; closing `done`, waiting and concurrent calls are the subject of `Fleet`.
- A `Shutdown` that waits forever because a probe or a stop never returns: both return in the model.
- The keepalive loop of the trace stream, and its `Close` beyond what the bridge relies on.
- Reading the configuration file.
- Frames under way when one end of a WebSocket is closed may be lost; the terminal theorems claim prefixes, not delivery.
