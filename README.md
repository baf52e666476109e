# wasm-webterm, modelled in Dafny

This project models the sequential core of wasm-webterm, an xterm.js add-on
that runs WebAssembly programs (Emscripten or Wasmer/WASI builds) and
user-registered JavaScript commands in a browser terminal. It covers:

- the command-line history ring;
- the output line buffer;
- the two generations of the terminal controller, which split a line into
  pipe stages, run each stage and thread its output into the next stage's
  stdin preset, behind a one-run-at-a-time guard and a cache of compiled
  modules;
- the stdin bridge between the terminal and the worker that runs the
  programs (a 1000-slot shared window and a pause word);
- the main-thread runner;
- the Emscripten and Wasmer runnables: defaults, preset readers, device
  hooks, headless capture, file writes and reads, and the `onFinish` rule.

One file per component, one module per file:

- `js_text.dfy` (module `JsText`): JS strings as UTF-16 code units and the string operations the core uses (`split`, `indexOf`, `trim`, the `\s` tokenizer, last line, `\n` to `\r\n`)
- `history.dfy` (module `HistoryRing`): src/History.js
- `line_buffer.dfy` (module `LineBuffering`): src/LineBuffer.js
- `runnables.dfy` (module `Runnables`): what the runnables share: default filling, preset normalisation, the index preset reader, headless capture
- `tty_queue.dfy` (module `StdinQueue`): the Emscripten `tty.input` queue and the Wasmer parity counter, as step functions, and the byte copy into a read buffer
- `shared_memory.dfy` (module `SharedMemory`): the pause word and the stdin window, the same in both generations
- `wasm_runner.dfy` (module `WasmRunning`): src/runners/WasmRunner.js
- `wasm_worker.dfy` (module `WorkerBridge`): src/runners/WasmWorker.js
- `legacy_worker.dfy` (module `LegacyBridge`): src/EmscrWasmWebWorker.js
- `emscripten_runnable.dfy` (module `EmscriptenRun`): src/runnables/EmscriptenRunnable.js
- `legacy_executable.dfy` (module `LegacyExecutable`): src/EmscrWasmExecutable.js
- `wasmer_runnable.dfy` (module `WasmerRun`): src/runnables/WasmerRunnable.js
- `web_term.dfy` (module `WebTerm`): src/WasmWebTerm.js
- `legacy_term.dfy` (module `LegacyTerm`): src/EmscrWasmTerm.js

Conventions:

- A JS string is a sequence of UTF-16 code units (`JsText.JsString`).
  `charCodeAt` is indexing, and `String.fromCharCode` keeps its argument
  modulo 2^16.
- A `Uint8Array` store keeps a value modulo 256.
- Objects whose fields the source reassigns are classes:
  - `History` and `LineBuffer`;
  - the preset readers and capture buffers;
  - the shared arrays;
  - the runner and the workers;
  - the two terminals.
  Their methods state the whole new state.
- Everything opaque is a parameter of the operation that uses it:
  - a registered callback's result;
  - whether a fetch succeeded;
  - a compile or instantiation failure;
  - the line the user types at a prompt;
  - the program itself;
  - the file system dump.
- A program is a script of device operations (reads, writes, `put_char`,
  `flush`). A run is a trace of the events it causes: file writes, handler
  calls, and `onSuccess`/`onError`/`onFinish` calls.
- A line's WebAssembly stages consult a `Backend` of two oracles: `fetch`
  says what the server, the registry and the compiler answer for a
  program name, and `run` says what a run outputs. A stage resolves its
  module against the cache of compiled modules, which the line threads
  from stage to stage: a module compiled by one stage is reused by the
  later ones. The terminal surface is the `written` field.
- Concurrency is sequentialised. The foreground's answer to a stdin request
  is a method parameter, and the worker sees the window exactly as the
  foreground left it.

Where the code and the written design of the system disagree, the model
follows the code:

- Stages are split on every `|` and tokenized on `\s` runs. There is no
  quoting, escaping, `name=value` handling or other shell operator.
- Module binaries are looked up at `<path>/<name>.wasm`, and the module
  kinds are "emscripten" and "wasmer".
- The legacy controller only logs a failing line to the console. It does
  not write it to the terminal.
- Ctrl+C behaves differently in the two controllers:
  - the current controller rejects an open interactive run with "Ctrl + C";
  - the legacy controller resolves it and leaves its running flag set.
  Neither settles an open headless run, whose worker is gone, so a line
  interrupted inside a pipe never ends. The model logs both under Findings.
- A Wasmer instance that fails to instantiate reaches neither `onError` nor
  `onFinish`; neither does an Emscripten run whose `instantiateWasm` hook
  fails to instantiate. The model logs both under Findings and uses the
  corrected runs.
- The legacy controller's module-load `catch` hangs on an `Error`
  rejection, and its generator loop and `_stdout` differ from what they
  evidently intend. The model logs these under Findings and runs the line
  on the corrected versions.
- An Emscripten program that throws out of `callMain` skips the file read,
  so `onFinish` gets the input files.

## Model

| member | source | states |
|---|---|---|
| JsText.FromCharCode | src/LineBuffer.js:17 | `String.fromCharCode(n)` is one code unit, `n` modulo 2^16, and `n` itself for every valid code |
| JsText.FromCharCodes | src/runners/WasmWorker.js:58 | decoding a list of codes gives one unit per code, each valid code unchanged |
| JsText.FromCharCodesOfCodes | src/runners/WasmWorker.js:58 | decoding the `charCodeAt` codes of a string gives the string back |
| JsText.IndexOf | src/LineBuffer.js:21 | `indexOf` is -1 exactly when the unit is absent, otherwise the first index holding it |
| JsText.Split | src/WasmWebTerm.js:209 | `split` on one unit gives at least one piece and no piece holds the separator |
| JsText.SplitCount | src/WasmWebTerm.js:209 | a string splits into one piece more than it has separators |
| JsText.SplitAround | src/WasmWebTerm.js:209 | two separator-free pieces joined by one separator split back into exactly those two pieces |
| JsText.JoinSplit | src/runnables/WasmerRunnable.js:160 | joining the pieces of a split on the same separator gives the string back |
| JsText.Join | src/runnables/WasmerRunnable.js:160 | `join` on a one-unit separator: the pieces with the separator between neighbours |
| JsText.LastLine | src/runners/WasmRunner.js:92 | `split(/\r?\n/g).pop()` holds no line feed |
| JsText.LastLineAppend | src/runners/WasmRunner.js:92 | appending text without a line feed extends the last line by exactly that text |
| JsText.LastLineAfterLF | src/runners/WasmRunner.js:125 | right after a line feed the last line is empty |
| JsText.Trim | src/History.js:20 | `trim` never lengthens a string |
| JsText.TrimEmptyIffBlank | src/History.js:20 | `trim() === ""` holds exactly for strings made only of whitespace (both directions) |
| JsText.TrimNonBlank | src/History.js:20 | a string starting with a non-space unit never trims to empty |
| JsText.IsSpace | src/WasmWebTerm.js:213 | the whitespace units of `\s` and of `trim`: tab, line feed, vertical tab, form feed, carriage return, space, no-break space and the Unicode space separators, line and paragraph separators and the byte order mark |
| JsText.TokensAreWords | src/WasmWebTerm.js:213 | every piece of `split(/[\s]{1,}/g).filter(Boolean)` is a non-empty run of non-whitespace |
| JsText.TokensKeepNonSpace | src/WasmWebTerm.js:213 | the tokens concatenate to exactly the non-whitespace units of the string, in order |
| JsText.TokensSeparate | src/WasmWebTerm.js:213 | a whitespace unit separates tokens: both sides tokenize independently |
| JsText.Tokens | src/WasmWebTerm.js:213 | `split(/[\s]{1,}/g).filter(Boolean)`: the maximal runs of non-whitespace, in order |
| JsText.ExpandNewlines | src/WasmWebTerm.js:549 | `replace(/\n/g, "\r\n")` lengthens the text by its number of line feeds |
| JsText.ExpandNewlinesRoundTrip | src/WasmWebTerm.js:549 | collapsing each CR LF of the translated text gives the original text back |
| JsText.ExpandNewlinesNoBareLF | src/WasmWebTerm.js:549 | every line feed of the translated text is preceded by a carriage return |
| JsText.CollapseNewlines | src/WasmWebTerm.js:549 | the inverse translation used by the round trip: a carriage return right before a line feed is dropped |
| JsText.ExpandFirstNewline | src/EmscrWasmTerm.js:608 | `replace("\n", "\r\n")` leaves text without a line feed unchanged and otherwise adds exactly one unit, keeping the number of line feeds |
| HistoryRing.At | src/History.js:39-48 | `entries[cursor]` is undefined exactly when the cursor is past the newest entry, and that entry otherwise |
| HistoryRing.Pushed | src/History.js:18-31 | a blank entry or a repeat of the newest entry leaves the list unchanged; an accepted entry becomes the newest and the oldest is dropped when the list is over `size`; the list stays within `size`, non-blank and free of neighbouring repeats |
| HistoryRing.PushAllWindow | src/History.js:18-31 | pushing accepted entries one after the other leaves exactly the newest `size` of everything pushed |
| HistoryRing.PushAll | src/History.js:18-31 | pushing a list of entries one after the other |
| HistoryRing.Newest | src/History.js:26-28 | the newest `n` entries of a list: the whole list when it has at most `n`, else exactly `n` of them |
| HistoryRing.History.constructor | src/History.js:9-15 | a new history is empty, its cursor 0, its `size` the one given |
| HistoryRing.History.Push | src/History.js:18-31 | the entry list becomes `Pushed` of the old one; the cursor moves one past the newest entry exactly when the entry was kept; the history stays well formed |
| HistoryRing.History.Rewind | src/History.js:34-36 | the cursor moves one past the newest entry and the entries stay |
| HistoryRing.History.GetPrevious | src/History.js:39-42 | the cursor moves one entry back, not below 0, and the entry there is returned; nothing is returned only for an empty history |
| HistoryRing.History.GetNext | src/History.js:45-48 | the cursor moves one entry on, not past one after the newest, and the entry there is returned; nothing is returned exactly at the end |
| LineBuffering.ChunkText | src/LineBuffer.js:16-17 | a string is written as itself and a number as the one unit `String.fromCharCode` makes of it |
| LineBuffering.CompleteLinesStep | src/LineBuffer.js:21-26 | text with a line feed gives off its first line, line feed included, and the rest is processed the same way |
| LineBuffering.CompleteLines | src/LineBuffer.js:21-26 | the chunks the `while` loop hands over: each line of the buffer up to and including its line feed, in order |
| LineBuffering.LinesShape | src/LineBuffer.js:21-26 | every chunk handed over ends in its line feed and holds no other |
| LineBuffering.LinesConserve | src/LineBuffer.js:21-26 | the chunks handed over followed by the kept rest are exactly the buffered text |
| LineBuffering.LinesCount | src/LineBuffer.js:21-26 | one chunk is handed over per line feed |
| LineBuffering.LineHasOneLF | src/LineBuffer.js:21-24 | a chunk holds exactly one line feed |
| LineBuffering.WriteConserves | src/LineBuffer.js:15-27 | one write hands over chunks that, with the new buffer, are the old buffer plus the written text; one chunk per written line feed, each with one line feed |
| LineBuffering.ConstructorCheckAsWritten | src/LineBuffer.js:6-10 | a non-function output function makes the constructor throw, and the error thrown is the ReferenceError for the missing `ValueError` |
| LineBuffering.ConstructorCheck | src/LineBuffer.js:6-10 | construction fails exactly when no function is given, with a TypeError naming what was passed |
| LineBuffering.ConstructorMessageLost | src/LineBuffer.js:7-9 | for every non-function argument the error as written differs from the intended one |
| LineBuffering.LineBuffer.constructor | src/LineBuffer.js:5-13 | a buffer exists only when the check passes, and starts empty with nothing handed over |
| LineBuffering.LineBuffer.Write | src/LineBuffer.js:15-27 | the complete lines of the old buffer plus the written text are handed over in order, and the buffer keeps what follows the last line feed |
| LineBuffering.LineBuffer.Flush | src/LineBuffer.js:29-34 | pending text, if any, is handed over as one chunk and the buffer empties; an empty buffer hands over nothing |
| Runnables.FilesOrEmpty | src/runnables/EmscriptenRunnable.js:32 | an array argument is the file list, anything else becomes the empty list |
| Runnables.OrDefault | src/runnables/EmscriptenRunnable.js:29-31 | a function argument is kept, anything else is replaced by the default |
| Runnables.WithDefaults | src/runnables/EmscriptenRunnable.js:35-37 | each missing completion callback gets its default: `onFinish` and `onSuccess` do nothing, `onError` logs; given ones are kept |
| Runnables.DefaultsIdempotent | src/runnables/WasmerRunnable.js:29-31 | filling defaults a second time, as the runnables do after the runner, changes nothing |
| Runnables.NormalisePreset | src/runnables/EmscriptenRunnable.js:63-66 | a falsy preset is none; any other becomes its string form ending in exactly the line feed it had or one appended |
| Runnables.PresetReader.constructor | src/runnables/EmscriptenRunnable.js:68 | the reader starts at the first unit of the preset |
| Runnables.PresetReader.Read | src/runnables/EmscriptenRunnable.js:69-73 | a read returns the code at the cursor and advances, or `null` at the end without moving |
| Runnables.PresetReplays | src/runnables/EmscriptenRunnable.js:68-73 | successive reads return the preset's codes in order, then `null` for every later read |
| Runnables.PresetReads | src/runnables/EmscriptenRunnable.js:69-73 | the values of successive reads of the preset from a cursor |
| Runnables.CaptureSplits | src/runnables/EmscriptenRunnable.js:117-119 | the combined capture is exactly as long as the stdout and stderr captures together |
| Runnables.CaptureOneStream | src/runnables/WasmerRunnable.js:135-137 | output from one stream only: the combined capture equals that stream's capture |
| Runnables.Capture.constructor | src/runnables/EmscriptenRunnable.js:117 | the three capture buffers start empty |
| Runnables.Capture.Append | src/runnables/WasmerRunnable.js:136-137 | the text is added to the combined buffer and to its own stream's buffer, and its length is returned |
| Runnables.Capture.AppendCode | src/runnables/EmscriptenRunnable.js:118-119 | a code is added, as `String.fromCharCode` of it, to the combined buffer and to its stream's buffer |
| Runnables.Captured | src/runnables/EmscriptenRunnable.js:122-124 | the outputs handed to `onFinish`: the combined text is as long as both streams together |
| StdinQueue.Refilled | src/runners/WasmRunner.js:107-108 | the queue after a delivered line holds its codes in order followed by the `null` end marker |
| StdinQueue.Tty.constructor | src/runners/WasmRunner.js:107-108 | a device with the given `tty.input` queue and nothing output |
| StdinQueue.EmscrStdinStep | src/runners/WasmRunner.js:88-114 | a read asks for input exactly when the queue is empty; a non-empty queue gives its head; a delivered line gives its first code and queues the rest with the end marker; a cancelled or empty delivery gives `null` |
| StdinQueue.DrainQueue | src/runners/WasmRunner.js:113 | reading a non-empty queue returns its entries in order, never asks for input and leaves it empty |
| StdinQueue.LineSession | src/runners/WasmRunner.js:89-113 | a delivered line is read in full: one request, then its codes in order, then `null`, with no further request and an empty queue at the end |
| StdinQueue.WasmerStdinStep | src/runners/WasmRunner.js:118-145 | an odd-numbered read returns 0 and counts; an even-numbered read asks, returning the delivered length and counting, or 0 without counting when cancelled |
| StdinQueue.WasmerAlternates | src/runners/WasmRunner.js:120-143 | from an even counter a delivered line is returned once, the next read returns 0 without asking, and the counter is even again |
| StdinQueue.Uint8 | src/runners/WasmWorker.js:82 | a byte store keeps the value modulo 256 |
| StdinQueue.CopiedInto | src/runners/WasmWorker.js:82 | after the copy each slot below the number of codes holds its code as a byte and every other slot is unchanged |
| StdinQueue.CopyCodes | src/runnables/WasmerRunnable.js:55-56 | the buffer becomes `CopiedInto` of its old contents: codes stored as bytes from index 0, stores past its end dropped |
| SharedMemory.Filled | src/WasmWebTerm.js:510-513 | the written window holds the line's codes, then 0 in every later slot, and has exactly the window's size |
| SharedMemory.BeforeZero | src/runners/WasmWorker.js:37-46 | the reader gets a prefix of the window without zeros, stopping exactly at the first 0 |
| SharedMemory.ReadAfterSet | src/WasmWebTerm.js:510-513 | reading back a window written with a line without NUL gives the codes of its first 1000 characters |
| SharedMemory.ReadStopsAtNul | src/runners/WasmWorker.js:42 | a NUL in the line cuts what the reader gets at that character |
| SharedMemory.SharedBuffers.constructor | src/WasmWebTerm.js:466-467 | one pause slot and 1000 stdin slots, all 0 |
| SharedMemory.SharedBuffers.PauseExecution | src/runners/WasmWorker.js:20-25 | the pause word becomes 1 (hold) |
| SharedMemory.SharedBuffers.ResumeExecution | src/runners/WasmWorker.js:27-32 | the pause word becomes 0 (go) |
| SharedMemory.SharedBuffers.SetStdinBuffer | src/WasmWebTerm.js:510-513 | the window becomes `Filled` with the line |
| SharedMemory.SharedBuffers.Answer | src/WasmWebTerm.js:529-530 | the terminal's answer: the window holds the line and the pause word says go |
| SharedMemory.SharedBuffers.Exchange | src/runners/WasmWorker.js:77-81 | one handshake: the background gets exactly what precedes the first 0 of the window filled with the line, which stays in the window, and the pause word ends at go |
| SharedMemory.SharedBuffers.ReadStdinBuffer | src/runners/WasmWorker.js:37-46 | the codes before the first 0 of the window, or the whole window if there is none |
| SharedMemory.SharedBuffers.ReadStdinSlot | src/runners/WasmWorker.js:38 | an index inside the window gives that slot; any other index is a RangeError |
| WasmRunning.Dispatch | src/runners/WasmRunner.js:13-85 | missing callbacks get defaults; "emscripten" and "wasmer" select their runnable, and any other type is the "Unknown wasm module type" error |
| WasmRunning.DispatchedCallbacksReachRun | src/runners/WasmRunner.js:16-19 | the runnable's second filling of defaults keeps the runner's callbacks |
| WasmRunning.Runner.constructor | src/runners/WasmRunner.js:11 | a new runner has an empty output buffer and a zero Wasmer counter |
| WasmRunning.Runner.BufferOutput | src/runners/WasmRunner.js:22-24 | the output handlers append the value (a number as one character) to the output buffer and forward it |
| WasmRunning.Runner.Caption | src/runners/WasmRunner.js:92 | the prompt caption holds no line feed |
| WasmRunning.Runner.OnEmscrStdinCall | src/runners/WasmRunner.js:88-114 | the read follows `EmscrStdinStep` on the answer's codes plus a line feed; only an empty queue prompts, with the last output line as caption; an answer is echoed with CR LF into the output buffer; a cancelled prompt returns `null` |
| WasmRunning.Runner.OnWasmerStdinCallAsWritten | src/runners/WasmRunner.js:118-145 | odd reads return 0, cancelled prompts return 0, and an answer, once echoed, ends in a TypeError from `forEach` on a string with the counter unchanged |
| WasmRunning.Runner.OnWasmerStdinCall | src/runners/WasmRunner.js:118-145 | the read follows `WasmerStdinStep`; an answer on an even call is echoed and its codes land in the buffer; otherwise buffer and output buffer are unchanged |
| WasmRunning.CaptionAfterEcho | src/runners/WasmRunner.js:104 | after an echoed answer the caption is empty, and later output without a line feed becomes the whole next caption |
| WasmRunning.CaptionIsLastLine | src/runners/WasmRunner.js:92 | the caption is exactly what follows the last line feed of the output |
| WorkerBridge.Worker.constructor | src/runners/WasmWorker.js:9-13 | a worker over the two shared arrays, with a fresh runner |
| WorkerBridge.Worker.AwaitLine | src/runners/WasmWorker.js:53-57 | the terminal is asked with the last output line as caption, and the read gets what precedes the first 0 of the window holding the line; the pause word ends at go |
| WorkerBridge.Worker.OnEmscrStdinCall | src/runners/WasmWorker.js:49-66 | the read follows `EmscrStdinStep` on what arrived; only an empty queue asks; what arrived is appended to the output buffer and the terminal prompted with the last output line, the window then holding the line and the pause word at go; a non-empty queue leaves the window, the pause word, the output buffer and the calls alone; nothing arriving returns `null` |
| WorkerBridge.Worker.OnWasmerStdinCall | src/runners/WasmWorker.js:70-91 | the read follows `WasmerStdinStep` on what arrived; an even call prompts the terminal with the last output line and copies what arrived into the caller's buffer and the output buffer, the window then holding the line and the pause word at go; an odd call changes none of the buffers, the calls, the window or the pause word |
| WorkerBridge.Worker.DeliverLine | src/runners/WasmWorker.js:76-89 | an even-numbered Wasmer read: the line arrives, is copied as bytes into the caller's buffer and appended to the output buffer, and its length is returned with the counter advanced; the terminal was prompted with the last output line, and the window holds the line with the pause word at go |
| WorkerBridge.EmscrLineRoundTrip | src/runners/WasmWorker.js:53-61 | a line of at most 1000 characters without NUL crosses the shared window intact: its first code is returned and the rest queued with the end marker; an empty line ends input with `null` |
| WorkerBridge.LongLineTruncated | src/WasmWebTerm.js:467 | a line longer than the window arrives cut to its first 1000 characters |
| WorkerBridge.Delivered | src/runners/WasmWorker.js:37-46 | what a read takes from the window after the terminal filled it with a line: the codes before its first 0 |
| LegacyBridge.LegacyWorker.constructor | src/EmscrWasmWebWorker.js:9-15 | a worker over the two shared arrays that has asked for nothing yet |
| LegacyBridge.LegacyWorker.OnStdinCall | src/EmscrWasmWebWorker.js:95-111 | the read follows `EmscrStdinStep` on what arrived through the window; only an empty queue asks the terminal, and the pause word then ends at go with the line in the window; a non-empty queue leaves both alone |
| EmscriptenRun.OutputsFollowProgram | src/runnables/EmscriptenRunnable.js:47-60 | with both output handlers given, every character the program puts reaches its own stream's handler, in order |
| EmscriptenRun.ReadsFollowPreset | src/runnables/EmscriptenRunnable.js:63-73 | with a preset, reads never reach the stdin handler and the values handed out are exactly the preset reader's replay |
| EmscriptenRun.Walk | src/runnables/EmscriptenRunnable.js:133-147 | the directory walk returns file records only, each with `Uint8Array` contents |
| EmscriptenRun.IgnoreFilterAsWritten | src/runnables/EmscriptenRunnable.js:148-150 | the filter as written never adds files |
| EmscriptenRun.IgnoreFilter | src/runnables/EmscriptenRunnable.js:148-150 | every kept file is one of the files and carries no ignored name |
| EmscriptenRun.IgnoreFilterKeeps | src/runnables/EmscriptenRunnable.js:148-150 | every file whose name is not ignored is kept (the other direction of the filter's promise) |
| EmscriptenRun.IgnoreFiltersAgreeWhenEmpty | src/runnables/EmscriptenRunnable.js:131 | with the default empty ignore list both filters keep every file |
| EmscriptenRun.IgnoreFilterAsWrittenKeepsIgnored | src/runnables/EmscriptenRunnable.js:149 | as written, ignoring two differently named files keeps both, where the intended filter keeps neither |
| EmscriptenRun.ReadFilesFromFS | src/runnables/EmscriptenRunnable.js:131-152 | the files read back all have `Uint8Array` contents, and with no ignore list they are the whole walk |
| EmscriptenRun.WriteEventsOnlyBytes | src/runnables/EmscriptenRunnable.js:154-162 | only `Uint8Array` files are written, each under its own name with its own bytes, and a failing write is only logged |
| EmscriptenRun.ReadFilesAreWritable | src/runnables/EmscriptenRunnable.js:154-162 | files read back after a run are all written when handed to a later run |
| EmscriptenRun.WriteFilesToFS | src/runnables/EmscriptenRunnable.js:154-162 | the loop writes every `Uint8Array` file in order, logs a failing one and carries on |
| EmscriptenRun.WriteEvents | src/runnables/EmscriptenRunnable.js:154-162 | the file-system events of writing the files: one write per `Uint8Array` file, the others skipped, a failing write logged |
| EmscriptenRun.WriteEventsNoOutput | src/runnables/EmscriptenRunnable.js:154-162 | writing files produces no output |
| EmscriptenRun.RunOps | src/runnables/EmscriptenRunnable.js:47-73 | the program's operations against the hooks give exactly the specified events, and each device's `tty.output` ends as what was put since its last flush |
| EmscriptenRun.OpHooks | src/runnables/EmscriptenRunnable.js:47-60 | one operation's hook calls are the head of the specified events, the preset reader advancing on a read |
| EmscriptenRun.OpsTrace | src/runnables/EmscriptenRunnable.js:47-73 | the events of the program's operations against the hooks: a read goes to the preset reader when there is a preset and to the stdin handler otherwise, a put goes to its device's output handler |
| EmscriptenRun.PutChars | src/runnables/EmscriptenRunnable.js:50-56 | the characters the program puts, with their streams, in order |
| EmscriptenRun.TtyOutput | src/runnables/EmscriptenRunnable.js:50-57 | a device's `tty.output`: what was put on it since its last flush |
| EmscriptenRun.OpsTraceStep | src/runnables/EmscriptenRunnable.js:47-73 | one operation of the program: a read takes the preset reader's next value, or calls the stdin handler when there is no preset; a put reaches its device's handler; a flush produces no event |
| EmscriptenRun.OpsTraceOnlyIO | src/runnables/EmscriptenRunnable.js:47-73 | the program's operations only produce reads and outputs, never a callback |
| EmscriptenRun.OutputPiecesAppend | src/runnables/EmscriptenRunnable.js:117-119 | the captured pieces of two traces put together are the pieces of the first followed by those of the second |
| EmscriptenRun.TtyStep | src/runnables/EmscriptenRunnable.js:50-51 | `put_char` pushes onto the device's `tty.output` and `flush` empties it |
| EmscriptenRun.Execute | src/runnables/EmscriptenRunnable.js:77-94 | file writes, `callMain`, the program's events, then `onSuccess` with the files read back, or `onError` when the runtime fails or the program aborts |
| EmscriptenRun.ExecTrace | src/runnables/EmscriptenRunnable.js:77-94 | a run up to its `finally`: file writes, `callMain`, the program's events and `onSuccess` once the module loaded, or `onError` with the load error |
| EmscriptenRun.FilesPostRun | src/runnables/EmscriptenRunnable.js:87 | the files read back after the run, when the run got that far |
| EmscriptenRun.ExecTraceOutcome | src/runnables/EmscriptenRunnable.js:77-95 | before `finally` no `onFinish` is called; `onSuccess` is called exactly when the runtime loaded and the program returned, `onError` exactly otherwise |
| EmscriptenRun.ExecTraceOutputs | src/runnables/EmscriptenRunnable.js:78-92 | with both output handlers given, the outputs of a run are exactly the characters the program put, none when the runtime failed |
| EmscriptenRun.FinishFiles | src/runnables/EmscriptenRunnable.js:95 | `onFinish` gets the files read back when the run got that far, the input files otherwise |
| EmscriptenRun.Run | src/runnables/EmscriptenRunnable.js:24-97 | defaults, then the execution, then `onFinish` exactly once and last, with the files read back, or else the input files |
| EmscriptenRun.CaptureOutputs | src/runnables/EmscriptenRunnable.js:117-119 | feeding a run's output characters to the capture handlers gives the capture of its output pieces |
| EmscriptenRun.RunHeadless | src/runnables/EmscriptenRunnable.js:106-126 | `onFinish` is called once, last, with the captured outputs of exactly the characters the program put |
| EmscriptenRun.RunTraceAsWritten | src/runnables/EmscriptenRunnable.js:42-46 | `run` as written, whole: when `WebAssembly.instantiate` in the `instantiateWasm` hook rejects, the run stops before any file is written and without any callback; otherwise the shared execution followed by `onFinish` |
| EmscriptenRun.InstantiateRejectionNeverFinishes | src/runnables/EmscriptenRunnable.js:42-45 | as written, a rejected instantiation calls none of `onError`, `onSuccess` and `onFinish`; taken as the failed load it evidently should be, `onError` gets the reason and `onFinish` the input files |
| EmscriptenRun.RuntimeGlobal | src/runnables/EmscriptenRunnable.js:169 | the runtime global is `"EmscrJSR_"` followed by the program name |
| LegacyExecutable.LegacyFinishArg | src/EmscrWasmExecutable.js:94 | `onFinish(filesPostRun)`: `undefined` exactly when the run did not reach reading the files back |
| LegacyExecutable.FinishArgsAgree | src/EmscrWasmExecutable.js:94 | both generations hand `onFinish` the same files when they were read back; otherwise only the current one falls back to the input files |
| LegacyExecutable.Run | src/EmscrWasmExecutable.js:28-96 | the same execution as the current runnable, then `onFinish` exactly once, last, with the files read back or `undefined` |
| LegacyExecutable.RuntimeUrl | src/EmscrWasmExecutable.js:171-173 | the runtime URL is the path (default "bin"), a slash, the program name and ".js" |
| LegacyExecutable.RuntimeUrlRoundTrip | src/EmscrWasmExecutable.js:173 | the program name can be read back from the runtime URL |
| LegacyExecutable.LegacyRuntimeGlobal | src/EmscrWasmExecutable.js:174 | the runtime global is `"EmscrJsRE_"` followed by the program name |
| LegacyExecutable.GlobalsDiffer | src/EmscrWasmExecutable.js:174 | the two generations look up different globals for every program |
| WasmerRun.StreamOfFd | src/runnables/WasmerRunnable.js:66-77 | a write reaches the stderr handler exactly when it is on fd 2; fd 1 and `/dev/tty` reach stdout |
| WasmerRun.PresetCounter.constructor | src/runnables/WasmerRunnable.js:47 | the preset reader starts with its call counter at 0 |
| WasmerRun.PresetCounter.Read | src/runnables/WasmerRunnable.js:48-63 | an even-numbered call copies the preset's codes into the buffer and returns the preset's length; an odd-numbered call returns 0 and leaves the buffer alone; each call advances the counter |
| WasmerRun.OpsTraceStep | src/runnables/WasmerRunnable.js:40-77 | one operation of the program: a read goes to the preset reader when there is a preset and to the stdin handler otherwise, and a write goes to the handler of its fd |
| WasmerRun.WithoutTty | src/runnables/WasmerRunnable.js:74-77 | the program rewritten without `/dev/tty`: same length, no read or write left on the tty |
| WasmerRun.TtyAliases | src/runnables/WasmerRunnable.js:74-77 | `/dev/tty` reads through fd 0's reader and writes through fd 1's writer: a run is the same with every tty access replaced by the fd 0 or fd 1 access |
| WasmerRun.PresetReadsAlternate | src/runnables/WasmerRunnable.js:47-63 | for any sequence of reads, the even-numbered ones receive the whole preset and the odd-numbered ones read 0 (end of input) |
| WasmerRun.TwoPresetReads | src/runnables/WasmerRunnable.js:50-62 | from an even counter, one read fills the buffer with the preset and the next one returns 0 |
| WasmerRun.OutputPiecesAppend | src/runnables/WasmerRunnable.js:135-137 | the captured pieces of two traces put together are the pieces of the first followed by those of the second |
| WasmerRun.OutputsFollowProgram | src/runnables/WasmerRunnable.js:66-72 | with both output handlers given, every text the program writes reaches its stream, in order, and nothing else does |
| WasmerRun.WriteHook | src/runnables/WasmerRunnable.js:67-72 | a write hook forwards the text to the handler of its fd, when one was given, and reports the whole buffer as written |
| WasmerRun.PresetReadOp | src/runnables/WasmerRunnable.js:48-63 | one read through the preset reader leaves exactly the event and counter of the preset read step |
| WasmerRun.RunOps | src/runnables/WasmerRunnable.js:40-77 | running the program against the installed hooks gives exactly the specified I/O events, the preset counter starting at 0 |
| WasmerRun.BaseName | src/runnables/WasmerRunnable.js:160 | the last segment of a file name contains no `/` |
| WasmerRun.ParentRoundTrip | src/runnables/WasmerRunnable.js:160 | a name with a `/` is its parent path, a `/` and its base name; a name without one has the empty parent path |
| WasmerRun.WritesFollowMkdir | src/runnables/WasmerRunnable.js:156-167 | every file write comes right after the creation of that file's parent path |
| WasmerRun.WriteFilesToFS | src/runnables/WasmerRunnable.js:156-167 | for each `Uint8Array` file in order, the parent path is created and the file written; a failure is logged and the loop goes on; other files are skipped |
| WasmerRun.WriteEvents | src/runnables/WasmerRunnable.js:156-167 | the file-system events of writing the files: for each `Uint8Array` file its parent path is created, then the file written; a failing write is logged |
| WasmerRun.Parent | src/runnables/WasmerRunnable.js:160 | `split("/").slice(0,-1).join("/")`: the name without its last segment |
| WasmerRun.ReadFilesFromFS | src/runnables/WasmerRunnable.js:149-154 | the files read back are the dump entries that are not device files, each stamped and encoded; every such entry is among them |
| WasmerRun.Blacklist | src/runnables/WasmerRunnable.js:151 | the device files never handed back: `/dev/stdin`, `/dev/stdout`, `/dev/stderr`, `/dev/tty` |
| WasmerRun.FilesPostRun | src/runnables/WasmerRunnable.js:110 | the files read back after the run, when the run got that far |
| WasmerRun.RunTraceAsWritten | src/runnables/WasmerRunnable.js:95-120 | as written, a run whose instance is created behaves as the corrected run, while a failed instantiation writes the files and stops |
| WasmerRun.WriteEventsNoCallbacks | src/runnables/WasmerRunnable.js:156-167 | writing files calls no callback |
| WasmerRun.WriteEventsNoOutput | src/runnables/WasmerRunnable.js:156-167 | writing files produces no output |
| WasmerRun.RejectionNeverFinishes | src/runnables/WasmerRunnable.js:95-120 | as written, a rejected instantiation calls neither `onError` nor `onFinish`; the corrected run reports the reason to `onError` and then calls `onFinish` with the files |
| WasmerRun.OpsTraceOnlyIO | src/runnables/WasmerRunnable.js:40-77 | the program's operations only produce reads and outputs, never a callback |
| WasmerRun.OpsTrace | src/runnables/WasmerRunnable.js:40-77 | the events of the program's operations: reads go to the preset reader when there is a preset and to the stdin handler otherwise; writes on fd 1 and `/dev/tty` reach the stdout handler, on fd 2 the stderr handler |
| WasmerRun.Writes | src/runnables/WasmerRunnable.js:66-72 | the text the program writes, with its streams, in order |
| WasmerRun.RunTraceOutcome | src/runnables/WasmerRunnable.js:95-120 | `onFinish` is called exactly once and last; right before it exactly one of `onSuccess` and `onError`, `onSuccess` exactly when the instance was created and `start` returned or exited with code 0 |
| WasmerRun.Succeeds | src/runnables/WasmerRunnable.js:104-107 | `start` ends in success when it returns or throws with exit code 0 |
| WasmerRun.RunTrace | src/runnables/WasmerRunnable.js:36-120 | a run: file writes, then (once instantiated) the writes again, `start` with the program's events, the files read back and `onSuccess`, or `onError` with the message; `onFinish` last with `filesPostRun || files` |
| WasmerRun.RunTraceParts | src/runnables/WasmerRunnable.js:36-120 | a run is the file writes (twice once instantiated), `start` with `[programName, ...argv]` and the program's events, then the outcome callback and `onFinish` with the files read back or the input files |
| WasmerRun.OutcomeLast | src/runnables/WasmerRunnable.js:113-118 | callback-free events followed by one outcome callback and `onFinish` call each callback exactly once, in that order |
| WasmerRun.RunTraceOutputs | src/runnables/WasmerRunnable.js:66-72 | with both output handlers given, a run's outputs are exactly the program's writes, or nothing when instantiation failed |
| WasmerRun.SkeletonPieces | src/runnables/WasmerRunnable.js:113-118 | the callbacks around the program add no output |
| WasmerRun.Run | src/runnables/WasmerRunnable.js:18-122 | `run`: after the defaults, the trace is exactly the specified run (file writes, instantiation, program, outcome callback, `onFinish`) |
| WasmerRun.CaptureOutputs | src/runnables/WasmerRunnable.js:135-137 | feeding a trace's outputs into fresh buffers captures exactly its output pieces |
| WasmerRun.RunHeadless | src/runnables/WasmerRunnable.js:124-144 | `runHeadless`: `onFinish` is called once, last, with `output` holding both streams in call order and `stdout` and `stderr` holding each stream, exactly the program's writes |
| WasmerRun.ReportCaptured | src/runnables/WasmerRunnable.js:140-142 | the wrapper replaces the run's final `onFinish` with one carrying the captured outputs and leaves every earlier event alone |
| WebTerm.Parse | src/WasmWebTerm.js:213-214 | the first whitespace-separated token of a stage is the command name and the rest are argv; the tokens are non-empty, hold no whitespace and together are exactly the stage's non-space characters; a blank stage has no name and no argv |
| WebTerm.CollectYields | src/WasmWebTerm.js:234-235 | draining a generator gives `undefined` when it yields nothing and otherwise the concatenation of its values, starting with the first |
| WebTerm.Yielded | src/WasmWebTerm.js:234-235 | a generator's output: `undefined` when it yields nothing, else its values concatenated |
| WebTerm.CallbackOutput | src/WasmWebTerm.js:220-238 | a callback's output: a rejection or an `undefined` result is an error; only a generator that yields nothing gives `undefined`; a promise fulfilled with a falsy value gives "" |
| WebTerm.NextPreset | src/WasmWebTerm.js:242 | a stage's output becomes the next preset when it is non-empty; an empty or missing output gives no preset |
| WebTerm.OutputStep | src/WasmWebTerm.js:220-242 | a registered callback's stage once its output is known: inside a pipe the output becomes the next preset; on the last stage it is printed unless outputs are suppressed, and printing `undefined` throws |
| WebTerm.Resolve | src/WasmWebTerm.js:402-457 | `_getOrInitWasmModule` against a cache: the last entry with the name is reused, and only then is nothing compiled; otherwise a registry error, or else a compile error, is the rejection, and a compiled module is a new entry of the fetched kind with the requested name |
| WebTerm.StageEnd | src/WasmWebTerm.js:253-262 | a WebAssembly stage finishes exactly when its module resolves, with that module and the run's stdout and files, and otherwise fails with the resolution's reason |
| WebTerm.WasmStep | src/WasmWebTerm.js:250-262 | a WebAssembly stage: a held guard writes its error and ends the line; inside a pipe a headless run clears its line and passes its stdout on, or writes its failure and ends the line; at the end an interactive run is announced and stores its files, or writes its failure between line breaks |
| WebTerm.StageStep | src/WasmWebTerm.js:210-266 | one stage: a registered callback first, a registered entry without a function noted, and otherwise a WebAssembly stage resolved against the cache |
| WebTerm.LineFrom | src/WasmWebTerm.js:207-268 | the events of the stages from one on: each stage's events, then the rest of the line fed its output and the modules it cached, unless it stopped the line |
| WebTerm.InteractiveEffect | src/WasmWebTerm.js:279-343 | the last stage with the guard free writes the loading notice, then either clears the line, stores the run's files and caches the module if it was compiled just now, or writes the load failure between line breaks and caches nothing; it always lifts suppression |
| WebTerm.FinishedEffect | src/WasmWebTerm.js:316-320 | a finished interactive run writes its notice and the line clear, its files become the stored files, and its module is cached exactly when it was compiled just now |
| WebTerm.FailedEffect | src/WasmWebTerm.js:339 | an interactive run whose module failed writes the failure after its notice, stores no files and caches no module |
| WebTerm.SingleStage | src/WasmWebTerm.js:209-214 | a line without a pipe character is a single stage, run as the last stage with no preset |
| WebTerm.PipeThreadsStdout | src/WasmWebTerm.js:209-262 | in a pipe of two WebAssembly stages `a` and `b` with the guard free and `a`'s module resolving, `a` runs headless with no preset and its line is cleared, and `b` runs interactively with `a`'s stdout as its preset, resolved against the cache as `a` left it |
| WebTerm.TwoStages | src/WasmWebTerm.js:209-268 | a two-stage line is the first stage's events, then, unless it stopped the line, the last stage's events, fed the first one's output and the cache with the module it compiled |
| WebTerm.HeldGuardStartsNothing | src/WasmWebTerm.js:283 | while another run holds the guard, no stage of a line starts a WebAssembly run |
| WebTerm.StageLaunches | src/WasmWebTerm.js:253-262 | only the last stage of a line starts an interactive run |
| WebTerm.PipeReusesModule | src/WasmWebTerm.js:402-457 | `p x | p y` with the guard free and `p` resolving: the last stage runs the module the first stage left in the cache without compiling it again, and the line adds at most that one module to the cache |
| WebTerm.ResolvesAgain | src/WasmWebTerm.js:408-413 | a module that resolved resolves again from the cache, to the same entry, once the module compiled for it (if any) is cached, whatever the server would now answer |
| WebTerm.HeadlessEffect | src/WasmWebTerm.js:253-256 | a headless stage with the guard free clears its line and caches a module compiled just now, or writes its load failure and caches nothing; it stores no files and starts no interactive run |
| WebTerm.HeldEffect | src/WasmWebTerm.js:283 | a stage refused by a held guard writes the error and stores, caches and launches nothing |
| WebTerm.StartEffect | src/WasmWebTerm.js:253-262 | the start of a run writes, stores and caches nothing |
| WebTerm.AppendReady | src/WasmWebTerm.js:445-450 | a resolved module writes and stores nothing and joins the cache exactly when it was compiled just now |
| WebTerm.ExpandWithoutLF | src/WasmWebTerm.js:549 | text without a line feed is written unchanged |
| WebTerm.LoadingUnchanged | src/WasmWebTerm.js:316 | the loading notice reaches the terminal unchanged |
| WebTerm.LastMatch | src/WasmWebTerm.js:408-410 | the cache lookup finds an entry with the requested name, and finds none exactly when no entry has that name |
| WebTerm.CachedModuleFound | src/WasmWebTerm.js:445-450 | once a module is added to the cache a lookup of its name finds it, and lookups of other names are unaffected |
| WebTerm.ModuleUrl | src/WasmWebTerm.js:418 | the binary's URL is the binary path, a `/`, the program name and ".wasm" |
| WebTerm.AnswerReachesWorker | src/WasmWebTerm.js:510-513 | an answer that fits the stdin window and has no NUL reaches the worker as its codes followed by a line feed |
| WebTerm.InterruptAsWritten | src/WasmWebTerm.js:580-586 | Ctrl+C as written rejects exactly an open interactive run, with "Ctrl + C", and leaves an open headless run open |
| WebTerm.Interrupt | src/WasmWebTerm.js:580-586 | Ctrl+C as evidently intended ends whichever run is open and rejects it with "Ctrl + C"; with no run open nothing is settled |
| WebTerm.HeadlessInterruptHangs | src/WasmWebTerm.js:580-586 | Ctrl+C during a headless pipe stage leaves, as written, a cleared flag with the run still open and unsettled, so `runLine` waits forever; as intended the run is rejected and the guard consistent; on every other run the two agree |
| WebTerm.Terminal.constructor | src/WasmWebTerm.js:35-68 | a new terminal has no commands, no modules and no files, the guard free, outputs not suppressed and nothing written |
| WebTerm.Terminal.RegisterCommand | src/WasmWebTerm.js:153-156 | registering adds the name or replaces its entry; every other command and the rest of the state stay |
| WebTerm.Terminal.Stdout | src/WasmWebTerm.js:541-558 | while outputs are suppressed nothing is written; otherwise a string or a character code is written with every line feed turned into "\r\n", and writing `undefined` throws |
| WebTerm.Terminal.RunCommand | src/WasmWebTerm.js:279-343 | with the guard held it throws "WasmWebTerm is already running a command" and changes nothing; otherwise it takes the guard, lifts suppression and writes the loading notice |
| WebTerm.Terminal.RunCommandHeadless | src/WasmWebTerm.js:345-397 | the same guard as `runCommand`, and nothing is written |
| WebTerm.Terminal.OnModuleReady | src/WasmWebTerm.js:317-320 | once the module is resolved the current line is cleared |
| WebTerm.Terminal.OnFinish | src/WasmWebTerm.js:290-310 | an interactive run's `onFinish` releases the guard, keeps the run's files and resolves the open interactive promise |
| WebTerm.Terminal.OnHeadlessFinish | src/WasmWebTerm.js:354-364 | a headless run's `onFinish` releases the guard and resolves the headless promise with the outputs |
| WebTerm.Terminal.OnModuleFailure | src/WasmWebTerm.js:338-339 | a failed module resolution releases the guard and rejects the run's promise, an interactive run's reason prefixed with "\r\n" |
| WebTerm.Terminal.OnXtermDataAsWritten | src/WasmWebTerm.js:577-588 | Ctrl+C with a worker as written: output is suppressed, the flag cleared and only an open interactive run rejected with "Ctrl + C"; an open headless run stays open and unsettled, leaving the flag and the run in disagreement; any other input, or Ctrl+C without a worker, changes nothing |
| WebTerm.Terminal.OnXtermData | src/WasmWebTerm.js:577-588 | the corrected Ctrl+C: with a worker, output is suppressed and whichever run is open, interactive or headless, is rejected with "Ctrl + C", leaving the guard free and consistent; any other input, or Ctrl+C without a worker, changes nothing |
| WebTerm.Terminal.StdinProxy | src/WasmWebTerm.js:515-533 | answering a stdin request clears the prompt line, puts the answer and a line feed into the stdin window and lets the worker go on |
| WebTerm.Terminal.FindModule | src/WasmWebTerm.js:408-410 | the `forEach` over the cache finds the last entry with the name |
| WebTerm.Terminal.GetOrInitWasmModule | src/WasmWebTerm.js:402-457 | a cached module (the last entry with the name) is reused and the cache is unchanged; otherwise a binary found on the server gives an Emscripten module, else the registry's gives a Wasmer module, and a registry or compile error is the rejection with the cache unchanged; a compiled module is appended to the cache and found by the next lookup; the result is `Resolve` of the old cache |
| WebTerm.Terminal.FailStep | src/WasmWebTerm.js:272 | `runLine`'s `catch` writes the error with "\r\n" and ends the line |
| WebTerm.Terminal.RunWasmStage | src/WasmWebTerm.js:250-262 | a WebAssembly stage: with the guard held the error ends the line; otherwise it runs headless inside a pipe and interactively at the end, exactly as `WasmStep` says for the module resolved against the current cache, and the modules it compiled join the cache |
| WebTerm.Terminal.RunHeadlessStage | src/WasmWebTerm.js:253-256 | a stage inside a pipe runs headless, its stdout becomes the next preset, and a load failure ends the line with its reason; a module compiled on the way joins the cache, and the guard is released either way |
| WebTerm.Terminal.SettleHeadless | src/WasmWebTerm.js:354-397 | a headless run whose module resolved finishes: its line is cleared and its stdout passed on; a failed resolution rejects and the line writes the reason; the guard is released either way and the cache is untouched |
| WebTerm.Terminal.FinishHeadless | src/WasmWebTerm.js:354-376 | the module is ready and the run finishes: the line is cleared, the guard released, and its stdout is what the promise resolves with |
| WebTerm.Terminal.RunInteractiveStage | src/WasmWebTerm.js:259-262 | the last stage runs interactively: the notice, then the line cleared, the files stored and a module compiled on the way cached, or the failure written; suppression is lifted and the guard released |
| WebTerm.Terminal.FinishRun | src/WasmWebTerm.js:290-320 | a finished interactive run clears its line, releases the guard and keeps its files; the cache is left as the module load left it |
| WebTerm.Terminal.FailRun | src/WasmWebTerm.js:337-339 | a failed interactive run releases the guard and `runLine` writes "\r\n", the reason and "\r\n"; the cache is unchanged |
| WebTerm.Terminal.RunLine | src/WasmWebTerm.js:203-274 | `runLine`: the pipe-separated stages run in order, each getting the preset the previous stage produced (none for the first) and the module cache as the earlier stages left it, and an error ends the line; what was written, the files stored, the modules added to the cache and the lifted suppression match the line's events |
| WebTerm.Terminal.ApplyLine | src/WasmWebTerm.js:202-274 | a line's events are applied to the terminal: their text written, the last stored files kept, the modules compiled appended to the cache, and output suppression lifted exactly when an interactive run was launched; the guard and the commands are untouched |
| WebTerm.RunStage | src/WasmWebTerm.js:210-266 | one stage runs a registered command (or notes one that is not callable) before trying WebAssembly against the cache it is given, gives exactly `StageStep`, and the line from that stage on is its events followed, unless it stopped, by the rest of the line fed its output and the modules it cached |
| WebTerm.RunStages | src/WasmWebTerm.js:207-268 | the loop over the stages, carrying the preset and the cache from stage to stage, gives exactly the line's events, starting with no preset and the terminal's cache |
| LegacyTerm.OneRunAtATime | src/EmscrWasmTerm.js:281-282 | a consistent guard admits one run: taking it succeeds exactly when no run is open, and a second take throws "EmscrWasmTerm is already running a command" |
| LegacyTerm.ReleaseFrees | src/EmscrWasmTerm.js:289-291 | finishing, failing and (as intended) interrupting leave a free, consistent guard that the next run can take |
| LegacyTerm.InterruptLocksOut | src/EmscrWasmTerm.js:630-640 | as written, Ctrl+C during an interactive run resolves it but leaves the flag set, so every later run throws "already running"; during a headless run the run stays open with its worker gone and the flag set, so later runs throw too |
| LegacyTerm.Take | src/EmscrWasmTerm.js:281-282 | the guard of `runCommand`: a set flag throws "already running" and changes nothing, else the flag is set and the run is open |
| LegacyTerm.Release | src/EmscrWasmTerm.js:289-291 | `onFinish` and the module-load `catch`: the flag is cleared and no run is open |
| LegacyTerm.InterruptAsWritten | src/EmscrWasmTerm.js:630-640 | Ctrl+C as written: the open interactive run is resolved and the flag is left as it was |
| LegacyTerm.Interrupt | src/EmscrWasmTerm.js:630-640 | Ctrl+C as evidently intended: the interrupted run is over and the flag is cleared |
| LegacyTerm.FailAsWritten | src/EmscrWasmTerm.js:382-386 | the module-load `catch` as written: the flag is cleared; the run is over only when `_stderr` returns, that is for a string reason or with outputs suppressed |
| LegacyTerm.ErrorRejectionHangs | src/EmscrWasmTerm.js:382-386 | as written, an `Error` rejection with outputs enabled leaves the flag clear with the interactive run still open, an inconsistent guard, while a string rejection (and, as intended, every rejection) frees the guard |
| LegacyTerm.SecondLineFeedBare | src/EmscrWasmTerm.js:608 | as written, `_stdout` turns only the first line feed into "\r\n": of two line feeds the second reaches the terminal bare, while the corrected expansion leaves none bare |
| LegacyTerm.EventText | src/EmscrWasmTerm.js:226-240 | only direct writes and `_stdout` prints put text on the terminal |
| LegacyTerm.BufferStep | src/EmscrWasmTerm.js:611 | a print is appended to the output buffer, a reset empties it, anything else leaves it |
| LegacyTerm.AppendEvent | src/EmscrWasmTerm.js:202-270 | one more event adds its text to what was written, takes one buffer step and updates the stored files and the launch flag |
| LegacyTerm.Prints | src/EmscrWasmTerm.js:236 | every yielded value is printed through `_stdout`, in order, unless outputs are suppressed |
| LegacyTerm.AccumulateAsWritten | src/EmscrWasmTerm.js:230-234 | as written, the generator loop appends the yields to the preset the stage received |
| LegacyTerm.PresetLeaksIntoGenerator | src/EmscrWasmTerm.js:233-234 | after a stage that left an output, a generator's preset is that output followed by the yields rather than the yields alone |
| LegacyTerm.DrainGenerator | src/EmscrWasmTerm.js:230-237 | the corrected loop: the preset is exactly the yields concatenated and each yield is printed unless outputs are suppressed |
| LegacyTerm.CallbackStep | src/EmscrWasmTerm.js:211-246 | a callback's stage: a promise's and a plain value's output are written directly, a generator's yields printed through `_stdout`, and the output always becomes the next preset; a rejection or `undefined` is logged and ends the line |
| LegacyTerm.WasmStep | src/EmscrWasmTerm.js:249-262 | a WebAssembly stage: a held guard is logged and ends the line; inside a pipe a headless run clears the line and the buffer and passes its stdout on, or its failure is logged and ends the line; at the end an interactive run prints its notice and stores its files, or prints its failure, and the preset is reset |
| LegacyTerm.Resolve | src/EmscrWasmTerm.js:469-502 | `_getOrInitWasmModule` against a cache: the last entry with the name is reused, and only then is nothing compiled; otherwise the rejection is a string ("module not found: " and the URL) exactly when the request succeeded with an answer that is not "ok", and an `Error` otherwise |
| LegacyTerm.StageEnd | src/EmscrWasmTerm.js:252-261 | a WebAssembly stage finishes exactly when its module resolves, with that module and the run's stdout and files, and otherwise fails with the resolution's reason and kind |
| LegacyTerm.StageStep | src/EmscrWasmTerm.js:205-266 | one stage: a registered callback first, a registered entry without a function noted, and otherwise a WebAssembly stage resolved against the cache |
| LegacyTerm.LineFrom | src/EmscrWasmTerm.js:202-268 | the events of the stages from one on: each stage's events, then the rest of the line fed its output and the modules it cached, unless it stopped the line |
| LegacyTerm.CallbackStopsOnlyWhenLogged | src/EmscrWasmTerm.js:211-246 | a callback stage ends the line exactly when it rejects or returns `undefined`, and then ends with the logged error |
| LegacyTerm.WasmStopsOnlyWhenLogged | src/EmscrWasmTerm.js:249-262 | a WebAssembly stage ends the line exactly on a held guard or a failed headless load, with the logged error |
| LegacyTerm.StopsOnlyWhenLogged | src/EmscrWasmTerm.js:270 | a stage that ends the line ends it with an error logged to the console and nothing on the terminal |
| LegacyTerm.CallbackOutputIsPreset | src/EmscrWasmTerm.js:224-240 | a callback's output becomes the next preset whatever preset the stage received, and a returned value reaches the terminal even inside a pipe |
| LegacyTerm.HeldGuardStartsNothing | src/EmscrWasmTerm.js:281 | while another run holds the guard, no stage of a line starts a WebAssembly run |
| LegacyTerm.HeldStageStartsNothing | src/EmscrWasmTerm.js:398 | one stage under a held guard starts no WebAssembly run |
| LegacyTerm.PipeThreadsCallbackOutput | src/EmscrWasmTerm.js:204-261 | in a pipe of a callback returning a plain value and a WebAssembly program, the value is written and then the program runs as the last stage with the value as its preset and the cache unchanged by the callback |
| LegacyTerm.TwoStages | src/EmscrWasmTerm.js:204-268 | a two-stage line is the first stage's events, then, unless it stopped the line, the last stage's events, fed the first one's output and the cache with the module it compiled |
| LegacyTerm.CaptionIsPrompt | src/EmscrWasmTerm.js:569-575 | after the buffer was reset and a prompt without a line feed printed, the stdin caption is that prompt exactly |
| LegacyTerm.HeldEffect | src/EmscrWasmTerm.js:281 | a stage refused by a held guard writes, prints, stores and launches nothing |
| LegacyTerm.HeadlessEffect | src/EmscrWasmTerm.js:396-464 | a headless stage with the guard free clears the line and the buffer and caches a module compiled just now when it finishes, and writes and caches nothing when its load fails; no files are stored |
| LegacyTerm.HeadlessFinishedEffect | src/EmscrWasmTerm.js:426-429 | a finished headless run clears the line and the output buffer, stores nothing and caches its module exactly when it was compiled just now |
| LegacyTerm.HeadlessFailedEffect | src/EmscrWasmTerm.js:456 | a headless run whose module failed to load leaves the terminal and the buffer alone |
| LegacyTerm.NoticeEffect | src/EmscrWasmTerm.js:316 | an interactive run's loading notice is written and added to the buffer |
| LegacyTerm.FinishedEffect | src/EmscrWasmTerm.js:289-320 | a finished interactive run writes its notice and the line clear, empties the buffer, stores its files and caches its module exactly when it was compiled just now |
| LegacyTerm.ClearedEffect | src/EmscrWasmTerm.js:319-320 | clearing the line writes the clearing text and empties the buffer, changing nothing else |
| LegacyTerm.FailedEffect | src/EmscrWasmTerm.js:382-386 | an interactive run whose module failed prints the reason after the notice, stores nothing and caches nothing (the corrected failure path) |
| LegacyTerm.InteractiveEffect | src/EmscrWasmTerm.js:277-394 | the last stage with the guard free prints the notice, then clears the line and the buffer, stores the files and caches a module compiled just now, or prints the load failure (the corrected failure path); it always lifts suppression |
| LegacyTerm.Terminal.constructor | src/EmscrWasmTerm.js:31-59 | a new terminal has no commands, modules or files, a free guard, outputs not suppressed, an empty output buffer and nothing written |
| LegacyTerm.Terminal.RegisterCommand | src/EmscrWasmTerm.js:144-147 | registering adds the name or replaces its entry; every other command and the rest of the state stay |
| LegacyTerm.Terminal.Stdout | src/EmscrWasmTerm.js:598-616 | the corrected `_stdout`: nothing while suppressed; otherwise the value with every line feed turned into "\r\n" is written and appended to the output buffer; `undefined` throws |
| LegacyTerm.Terminal.StdoutAsWritten | src/EmscrWasmTerm.js:598-616 | `_stdout` as written: only the first line feed becomes "\r\n" in what is written and buffered |
| LegacyTerm.Terminal.RunCommand | src/EmscrWasmTerm.js:277-316 | with the flag set it throws and changes nothing; otherwise it takes the guard, lifts suppression and prints the loading notice |
| LegacyTerm.Terminal.RunCommandHeadless | src/EmscrWasmTerm.js:396-399 | the same guard as `runCommand`, nothing printed |
| LegacyTerm.Terminal.OnModuleReady | src/EmscrWasmTerm.js:319-320 | once the module is resolved the last line is cleared and the output buffer reset |
| LegacyTerm.Terminal.OnFinish | src/EmscrWasmTerm.js:289-310 | an interactive run's `onFinish` releases the guard, keeps the files and resolves the open interactive promise |
| LegacyTerm.Terminal.OnHeadlessFinish | src/EmscrWasmTerm.js:405-415 | a headless run's `onFinish` releases the guard and resolves the headless promise with the outputs |
| LegacyTerm.Terminal.OnModuleFailure | src/EmscrWasmTerm.js:382-386 | the module-load `catch`es as evidently intended: a failed load releases the guard; a headless run's promise rejects, while an interactive run prints the reason with every line feed expanded and resolves, whatever the rejection |
| LegacyTerm.Terminal.OnModuleFailureAsWritten | src/EmscrWasmTerm.js:382-386 | the module-load `catch`es as written: a headless run clears the flag and rejects; an interactive run clears the flag and, with outputs enabled, prints a string reason with only its first line feed expanded and resolves, while an `Error` reason prints nothing and leaves the run open |
| LegacyTerm.Terminal.OnXtermData | src/EmscrWasmTerm.js:630-640 | the corrected Ctrl+C: with a worker it prints "^C\r\n" (unless suppressed, with every line feed expanded, into both the terminal and the output buffer), suppresses output, resolves an open interactive run, rejects an open headless one with "Ctrl + C" and releases the guard; other input changes nothing |
| LegacyTerm.Terminal.OnXtermDataAsWritten | src/EmscrWasmTerm.js:630-640 | Ctrl+C as written: "^C\r\n" goes through the as-written `_stdout` (only the first line feed expanded) into the terminal and the output buffer unless suppressed, output is suppressed, the interactive run is resolved but the flag left set, so the guard is left inconsistent, and a headless run is never settled; other input changes nothing |
| LegacyTerm.Terminal.StdinProxy | src/EmscrWasmTerm.js:564-590 | answering a stdin request shows the caption, puts the answer and a line feed into the stdin window and lets the worker go on |
| LegacyTerm.Terminal.Caption | src/EmscrWasmTerm.js:569-576 | the caption is the worker's message when it has one; otherwise it is the buffer's last line, and the line is cleared and the buffer reset |
| LegacyTerm.Terminal.FindModule | src/EmscrWasmTerm.js:476-478 | the `forEach` over the cache finds the last entry with the name |
| LegacyTerm.Terminal.GetOrInitWasmModule | src/EmscrWasmTerm.js:469-502 | a cached module (the last entry with the name) is reused and the cache is unchanged; otherwise a failed request rejects with its `Error`, an answer that is not "ok" with the string "module not found: " and the URL, a failed compile with its `Error`, all with the cache unchanged; a compiled module is appended to the cache and found by the next lookup; the result is `Resolve` of the old cache |
| LegacyTerm.Terminal.RunWasmStage | src/EmscrWasmTerm.js:249-262 | a WebAssembly stage: a held guard is logged and ends the line; otherwise it runs headless inside a pipe and interactively at the end, exactly as `WasmStep` says for the module resolved against the current cache, and the modules it compiled join the cache |
| LegacyTerm.Terminal.RunHeadlessStage | src/EmscrWasmTerm.js:252-255 | a stage inside a pipe runs headless and its stdout becomes the next preset, or its load failure is logged and ends the line; a module compiled on the way joins the cache, and the guard is released either way |
| LegacyTerm.Terminal.SettleHeadless | src/EmscrWasmTerm.js:405-456 | a headless run whose module resolved finishes: the line and the buffer are cleared and its stdout passed on; a failed resolution rejects and the line logs the reason; the guard is released either way and the cache is untouched |
| LegacyTerm.Terminal.FinishHeadless | src/EmscrWasmTerm.js:405-429 | the module is ready and the run finishes: the line and the buffer are cleared, the guard released, and its stdout is what the promise resolves with |
| LegacyTerm.Terminal.RunInteractiveStage | src/EmscrWasmTerm.js:258-261 | the last stage runs interactively: the notice, then the line cleared, the files stored and a module compiled on the way cached, or the failure printed (the corrected failure path); the preset is reset, suppression lifted and the guard released |
| LegacyTerm.Terminal.FinishRun | src/EmscrWasmTerm.js:289-320 | a finished interactive run clears the line and the buffer, releases the guard and keeps its files |
| LegacyTerm.Terminal.FailRun | src/EmscrWasmTerm.js:382-386 | a failed interactive run releases the guard and prints its reason with every line feed expanded (the corrected failure path); the cache is unchanged |
| LegacyTerm.Terminal.RunLine | src/EmscrWasmTerm.js:197-272 | `runLine`: the output buffer is reset, the pipe-separated stages run in order, each getting the preset the previous one left (none for the first) and the module cache as the earlier stages left it, and an error is logged and ends the line; what was written, the buffer, the files stored, the modules added to the cache and the lifted suppression match the line's events |
| LegacyTerm.Terminal.ApplyLine | src/EmscrWasmTerm.js:202 | a line's events are applied to the terminal: their text written, the buffer rebuilt from empty, the last stored files kept, the modules compiled appended to the cache |
| LegacyTerm.RunStage | src/EmscrWasmTerm.js:205-266 | one stage runs a registered callback (or notes one that is not callable) before trying WebAssembly against the cache it is given, gives exactly `StageStep`, and the line from that stage on is its events followed, unless it stopped, by the rest of the line fed its output and the modules it cached |
| LegacyTerm.RunStages | src/EmscrWasmTerm.js:202-268 | the loop over the stages, carrying the preset and the cache from stage to stage, gives exactly the line's events, starting with no preset and the terminal's cache |

## Left out

- `Atomics.wait`/`Atomics.notify`, creating, terminating and re-creating `Worker`s, `SharedArrayBuffer` sharing and Comlink proxies: this is concurrency and cross-context messaging. The pause word is an array the methods write, and the line the foreground delivers is a method parameter.
- `fetch`, `WebAssembly.compile`/`instantiate`, the Emscripten runtime (`callMain`, `FS`, `TTY`), `@wasmer/wasi`, `@wasmer/wasmfs` and the browser bindings are foreign libraries: they appear as parameters that return a result or a failure. The one exception is a rejection of `WebAssembly.instantiate` inside the Emscripten `instantiateWasm` hook: as written nothing handles it, which only `EmscriptenRun.RunTraceAsWritten` models (see Findings); everywhere else it is taken as a failed load.
- What the server, the package registry and the compiler answer for a program is a function of the program's name only (the `fetch` of a line's `Backend`), and what a run outputs is a function of the name, the arguments, the preset and whether the run is headless (its `run`); the model does not capture answers that change between two stages of one line.
- src/WapmFetchUtil.js is not part of this model: it is a network client, and a module missing from the cache is looked up through a parameter.
- `window.prompt`, xterm rendering, local-echo, `FitAddon`, the welcome banner, the resize handler, `activate`/`dispose`/`repl`, `unregisterCommand` and the `commands` getter are user interface.
- The `onFileSystemUpdate`, `onBeforeCommandRun` and `onCommandRunFinish` hooks and the `onFinishCallback` argument of `runCommand` call into code outside the system.
- `TextEncoder`/`TextDecoder`: file contents and output bytes are sequences of codes, not decoded UTF-8.
- `Date.now()`: the Wasmer file timestamps and the output-pause polling use the clock, so the time is a parameter `now` where it appears.
- `_waitForOutputPause`: its timer polling is treated as resolving at once.
- Console logging: it is either a logged event in a trace or not modelled.
- `_loadEmscrJsRuntime` and `importScripts`: script loading is environment plumbing; only the global name the runtime is expected under is modelled.
- The `window.prompt` fallback of the legacy terminal: a terminal without a worker is modelled only as one in which Ctrl+C does nothing.
- Output that a WebAssembly program writes while an interactive run is still going on: the program's run is an oracle that reports how it ended.
- WebTerm.Terminal.RunLine: the stages run first and their net effect (text written, files stored, lifted suppression) is applied to the terminal afterwards, not interleaved with the stages.
- LegacyTerm.Terminal.RunLine: as for the current terminal, the net effect of the stages is applied after them, not interleaved with them.
- WebTerm.Terminal.OnXtermData: states the corrected Ctrl+C, which also rejects an open headless run; as written that run's promise is never settled and `runLine` waits forever (`WebTerm.Terminal.OnXtermDataAsWritten`, `WebTerm.HeadlessInterruptHangs`). In both, Ctrl+C replaces the worker in the source; the model keeps the terminal's flags and does not model the new worker.
- LegacyTerm.Terminal.OnXtermData: states the corrected Ctrl+C, which releases the guard and rejects an open headless run; the code as written is `LegacyTerm.Terminal.OnXtermDataAsWritten`.
- The legacy `EmscrWasmExecutable.runHeadless` is `EmscriptenRun.RunHeadless`: the executable fills the callback defaults again, and `Runnables.DefaultsIdempotent` shows that this changes nothing.
- The legacy worker's `runCommand` and `runCommandHeadless` fill the defaults and hand over once the runtime has loaded; this is `LegacyExecutable.Run` with `Runnables.WithDefaults`.
- The success path of `WasmRunner._onWasmerStdinCall`: as written it throws, which the as-written member models; the corrected one is listed under Findings.
- LegacyTerm.Terminal.RunLine: the line runs on the corrected generator loop (`LegacyTerm.DrainGenerator`: the preset is the generator's own yields) and the corrected `_stdout` (every line feed expanded), and a failed interactive load prints its reason and resolves; the code as written differs in all three, as the Findings rows for src/EmscrWasmTerm.js:233-234, :608 and :382-386 show.
- LegacyTerm.RunStages: the same corrected generator loop, `_stdout` and failure path as `LegacyTerm.Terminal.RunLine`.
- LegacyTerm.RunStage: the same corrected generator loop, `_stdout` and failure path as `LegacyTerm.Terminal.RunLine`.
- LegacyTerm.StageStep: dispatches to the corrected `LegacyTerm.CallbackStep` and `LegacyTerm.WasmStep`, so it has the same corrected generator loop, `_stdout` and failure path as `LegacyTerm.Terminal.RunLine`.
- LegacyTerm.LineFrom: threads the stages of `LegacyTerm.StageStep`, with the same corrected generator loop, `_stdout` and failure path.
- LegacyTerm.Terminal.RunWasmStage: is tied to the corrected `LegacyTerm.WasmStep`; a failed interactive load takes the corrected failure path of `LegacyTerm.Terminal.FailRun`.
- LegacyTerm.CallbackStep: a generator's preset is its own yields and each yield is printed with every line feed expanded, the corrected behaviour; the as-written loop is `LegacyTerm.AccumulateAsWritten`.
- LegacyTerm.Prints: prints each yield with every line feed expanded, the corrected `_stdout`; as written only the first is (`LegacyTerm.Terminal.StdoutAsWritten`).
- LegacyTerm.CallbackOutputIsPreset: stated for the corrected generator loop.
- LegacyTerm.WasmStep: a failed interactive load is printed in full and the run resolves, the corrected path; as written an `Error` rejection hangs the run (`LegacyTerm.Terminal.OnModuleFailureAsWritten`).
- LegacyTerm.FailedEffect: states the corrected failure path; an `Error` rejection as written prints nothing and leaves the run open (`LegacyTerm.ErrorRejectionHangs`).
- LegacyTerm.InteractiveEffect: states the corrected failure path, as `LegacyTerm.FailedEffect` does.
- LegacyTerm.Terminal.OnModuleFailure: prints every rejection and resolves, the corrected `catch`; as written an `Error` rejection makes `_stderr` throw and the run never resolves (`LegacyTerm.Terminal.OnModuleFailureAsWritten`).
- LegacyTerm.Terminal.FailRun: the corrected failure path; the code as written is `LegacyTerm.Terminal.OnModuleFailureAsWritten`.
- LegacyTerm.Terminal.RunInteractiveStage: a failed load takes the corrected failure path of `LegacyTerm.Terminal.FailRun`.
- EmscriptenRun.Run: a rejection of `WebAssembly.instantiate` inside the hook is taken as a failed load (`onError`, then `onFinish` with the input files); as written the run never finishes (`EmscriptenRun.RunTraceAsWritten`).
- EmscriptenRun.RunHeadless: an instantiation rejection is taken as a failed load, as in `EmscriptenRun.Run`.
- EmscriptenRun.Execute: an instantiation rejection is taken as a failed load, as in `EmscriptenRun.Run`.
- EmscriptenRun.ExecTraceOutcome: an instantiation rejection is taken as a failed load, as in `EmscriptenRun.Run`.
- LegacyExecutable.Run: the legacy hook (src/EmscrWasmExecutable.js:46-50) has the same unhandled rejection; it is taken as a failed load, as in `EmscriptenRun.Run`.

## Findings

| source | as written | input that shows it | evidently intended | confidence | as-written member | corrected member |
|---|---|---|---|---|---|---|
| src/EmscrWasmTerm.js:608 | `_stdout` replaces only the first line feed with "\r\n" | `_stdout("\n\n")` writes "\r\n\n" | every line feed becomes "\r\n" | not executed | `LegacyTerm.Terminal.StdoutAsWritten`, `LegacyTerm.SecondLineFeedBare` | `LegacyTerm.Terminal.Stdout` |
| src/EmscrWasmTerm.js:630-640 | Ctrl+C resolves the interactive run but leaves `_isRunningCommand` set, and never settles an open headless run | Ctrl+C during an interactive run, then any command: it fails with "already running" | Ctrl+C releases the guard and ends whichever run is open | not executed | `LegacyTerm.Terminal.OnXtermDataAsWritten`, `LegacyTerm.InterruptLocksOut` | `LegacyTerm.Terminal.OnXtermData`, `LegacyTerm.ReleaseFrees` |
| src/WasmWebTerm.js:577-588 | Ctrl+C rejects only `_runCommandPromise`, the interactive run's promise, and clears the flag; the headless run's promise is local to `runCommandHeadless` and only its worker's `onFinish` settles it, but that worker has just been terminated | Ctrl+C while the first stage of a two-stage pipe runs headless: the `await` at src/WasmWebTerm.js:254 never returns, so the line never ends although the flag is clear | the headless run's promise is rejected too, so the line stops with "Ctrl + C" | not executed | `WebTerm.Terminal.OnXtermDataAsWritten`, `WebTerm.HeadlessInterruptHangs` | `WebTerm.Terminal.OnXtermData`, `WebTerm.Interrupt` |
| src/EmscrWasmTerm.js:233-234 | a generator command appends its yields to the preset the previous stage left | a pipe of two stages where the first gives "x" and the second is a generator yielding "y": the preset becomes "xy" | the generator's own output "y" | not executed | `LegacyTerm.AccumulateAsWritten`, `LegacyTerm.PresetLeaksIntoGenerator` | `LegacyTerm.DrainGenerator` |
| src/runnables/EmscriptenRunnable.js:148-150 | a file is kept when SOME ignore entry has a different name | ignoring `/a` and `/b` keeps both files | keep a file when NO ignore entry has its name | not executed | `EmscriptenRun.IgnoreFilterAsWritten`, `EmscriptenRun.IgnoreFilterAsWrittenKeepsIgnored` | `EmscriptenRun.IgnoreFilter`, `EmscriptenRun.IgnoreFilterKeeps` |
| src/runners/WasmRunner.js:137 | `forEach` is called on the answer, a string, which throws a TypeError | an even-numbered Wasmer read answered "ab" | copy the answer's codes into the buffer | not executed | `WasmRunning.Runner.OnWasmerStdinCallAsWritten` | `WasmRunning.Runner.OnWasmerStdinCall` |
| src/runnables/WasmerRunnable.js:95-120 | the instantiation promise has no rejection handler | instantiation rejects: neither `onError` nor `onFinish` is called | `onError` with the reason, then `onFinish` with the files | not executed | `WasmerRun.RunTraceAsWritten`, `WasmerRun.RejectionNeverFinishes` | `WasmerRun.Run`, `WasmerRun.RunTraceOutcome` |
| src/EmscrWasmTerm.js:382-386 | the module-load `catch` of `runCommand` hands the rejection to `_stderr`, which calls `replace` on it; an `Error` has no `replace`, so `_stderr` throws and `_resolveRunCommand` is never reached | the last stage of a line names a program whose `.wasm` does not compile, or whose request fails with a network error, with outputs enabled | the reason is printed and the run resolves, freeing the guard | not executed | `LegacyTerm.Terminal.OnModuleFailureAsWritten`, `LegacyTerm.ErrorRejectionHangs` | `LegacyTerm.Terminal.OnModuleFailure`, `LegacyTerm.ReleaseFrees` |
| src/runnables/EmscriptenRunnable.js:42-46 | the instantiation promise in the `instantiateWasm` hook has no rejection handler (the legacy copy at src/EmscrWasmExecutable.js:46-50 too) | `WebAssembly.instantiate` rejects: the runtime never becomes ready and none of `onError`, `onSuccess` and `onFinish` is called | `onError` with the reason, then `onFinish` with the input files | not executed | `EmscriptenRun.RunTraceAsWritten`, `EmscriptenRun.InstantiateRejectionNeverFinishes` | `EmscriptenRun.Run` |
| src/LineBuffer.js:7-9 | the constructor throws `new ValueError`, which is not defined, so a ReferenceError is thrown instead and the message is lost | `new LineBuffer(42)` | a TypeError with the message | not executed | `LineBuffering.ConstructorCheckAsWritten`, `LineBuffering.ConstructorMessageLost` | `LineBuffering.ConstructorCheck` |
