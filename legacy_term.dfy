/**
 * The legacy terminal controller (`EmscrWasmTerm`, exported as
 * `EmscrWasmController`). Like the current controller it splits a line into
 * pipe stages and threads each stage's output into the next stage's stdin
 * preset, but its callbacks receive argv only, their output reaches the
 * terminal at every stage, an error in a line only goes to the console, and
 * everything printed through `_stdout` is also kept in an output buffer whose
 * last line captions the next stdin request.
 */
module LegacyTerm {
  import opened JsText
  import opened Runnables
  import opened LineBuffering
  import opened SharedMemory
  import WebTerm

  /** A registered legacy command: a callback of argv, or an entry whose callback is not a function. */
  datatype Command = Callable(respond: seq<JsString> -> WebTerm.CallbackResult) | NotCallable

  /** What one line does, in order. */
  datatype LineEvent =
    | Called(name: JsString, argv: seq<JsString>)
    | Headless(program: WebTerm.Name, argv: seq<JsString>, preset: Option<JsString>)
    | Interactive(program: WebTerm.Name, argv: seq<JsString>, preset: Option<JsString>)
    | NoFunction(name: JsString)
    | ModuleReady(entry: WebTerm.ModuleEntry, compiledNow: bool)   // the module is resolved; a fresh one joins the cache
    | Wrote(text: JsString)       // written straight to the terminal surface
    | Printed(text: JsString)     // through `_stdout`: written and appended to the output buffer
    | Cleared                     // the output buffer is reset
    | Stored(files: seq<File>)
    | Logged(error: JsString)     // the line's `catch` logs the error to the console; the line ends

  /** A stage's events, the preset for the next stage, and whether the line stops here. */
  datatype Step = Step(events: seq<LineEvent>, next: Option<JsString>, stop: bool)

  /**
   * What fetching a program's binary afresh gives: a network failure (an
   * `Error`), else whether the server answered "ok", then whether
   * compiling failed (an `Error` too), and the compiled module's identity.
   */
  datatype Fetch = Fetch(networkError: Option<JsString>, ok: bool, compileError: Option<JsString>, compiled: nat)

  /**
   * What module resolution delivers: a module (compiled just now or
   * cached), or the rejection's text and whether it was rejected with a
   * string (`isText`) rather than an `Error` object.
   */
  datatype Resolution = Ready(entry: WebTerm.ModuleEntry, compiledNow: bool) | Unavailable(reason: JsString, isText: bool)

  /** How a WebAssembly stage ends: its module resolved and the program ran, or resolution failed. */
  datatype WasmEnd =
    | Finished(entry: WebTerm.ModuleEntry, compiledNow: bool, stdout: JsString, files: seq<File>)
    | LoadFailed(reason: JsString, isText: bool)

  /**
   * The world beyond the terminal: where binaries are served from, what a
   * fetch of a program's binary gives, and what a run of the program prints
   * and leaves (given its argv, its preset and whether it runs headless).
   */
  datatype Backend = Backend(binaryPath: JsString, fetch: WebTerm.Name -> Fetch,
                             run: (WebTerm.Name, seq<JsString>, Option<JsString>, bool) -> WebTerm.RunOutput)

  /** "EmscrWasmTerm is already running a command" */
  const ALREADY_RUNNING: JsString :=
    [69, 109, 115, 99, 114, 87, 97, 115, 109, 84, 101, 114, 109, 32, 105, 115, 32, 97, 108, 114, 101, 97, 100, 121, 32, 114, 117, 110, 110, 105, 110, 103, 32, 97, 32, 99, 111, 109, 109, 97, 110, 100]
  /** "module not found: " */
  const NOT_FOUND: JsString := [109, 111, 100, 117, 108, 101, 32, 110, 111, 116, 32, 102, 111, 117, 110, 100, 58, 32]
  /** "^C\r\n", echoed when Ctrl+C interrupts a run. */
  const INTERRUPTED: JsString := [94, 67, CR, LF]

  /*
   * The run guard as a state machine.
   */

  /** `_isRunningCommand`, and which run's promise is still open. */
  datatype Guard = Guard(running: bool, pending: WebTerm.Pending)

  /** The flag is set exactly while a run is open. */
  predicate Consistent(g: Guard)
  {
    g.running <==> !g.pending.Idle?
  }

  /** `runCommand` / `runCommandHeadless` up to their first `await`: a set flag throws, else it is set. */
  function Take(g: Guard, run: WebTerm.Pending): (r: (Guard, Option<JsString>))
    requires !run.Idle?
  {
    if g.running then (g, Some(ALREADY_RUNNING)) else (Guard(true, run), None)
  }

  /** `onFinish` and the module-load `catch`: the flag is cleared and the run is over. */
  function Release(g: Guard): (r: Guard)
  {
    Guard(false, WebTerm.Pending.Idle)
  }

  /**
   * `_terminateWorker` from Ctrl+C as written: the open interactive run is
   * resolved, but the flag is left set (an open headless run never
   * finishes, its worker being gone).
   */
  function InterruptAsWritten(g: Guard): (r: Guard)
  {
    Guard(g.running, if g.pending == WebTerm.Pending.InteractiveRun then WebTerm.Pending.Idle else g.pending)
  }

  /** Ctrl+C as evidently intended: the interrupted run is over and the flag is cleared. */
  function Interrupt(g: Guard): (r: Guard)
  {
    Guard(false, WebTerm.Pending.Idle)
  }

  /** A consistent guard admits exactly one run: the first take succeeds, a second one throws. */
  lemma OneRunAtATime(g: Guard, first: WebTerm.Pending, second: WebTerm.Pending)
    requires Consistent(g) && !first.Idle? && !second.Idle?
    ensures Take(g, first).1.None? <==> g.pending.Idle?
    ensures Consistent(Take(g, first).0)
    ensures Take(Take(g, first).0, second).1 == Some(ALREADY_RUNNING)
  {
  }

  /** Finishing, failing and (as intended) interrupting all leave a free, consistent guard. */
  lemma ReleaseFrees(g: Guard, run: WebTerm.Pending)
    requires !run.Idle?
    ensures Consistent(Release(g)) && Take(Release(g), run).1.None?
    ensures Consistent(Interrupt(g)) && Take(Interrupt(g), run).1.None?
  {
  }

  /**
   * Ctrl+C during an interactive run, as written: no run is open any more,
   * yet the flag stays set, so every later run throws "already running".
   * During a headless run the run stays open and the flag set: the line
   * waits for a worker that is gone, and every later run throws too.
   */
  lemma InterruptLocksOut(run: WebTerm.Pending)
    requires !run.Idle?
    ensures var g := InterruptAsWritten(Guard(true, WebTerm.Pending.InteractiveRun));
      g.pending.Idle? && !Consistent(g) &&
      Take(g, run) == (g, Some(ALREADY_RUNNING))
    ensures var g := InterruptAsWritten(Guard(true, WebTerm.Pending.HeadlessRun));
      g == Guard(true, WebTerm.Pending.HeadlessRun) && Take(g, run) == (g, Some(ALREADY_RUNNING))
  {
  }

  /**
   * The module-load `catch` of `runCommand` as written: the flag is
   * cleared, then `_stderr(e)` prints the error. Unless outputs are
   * suppressed, `_stdout` calls `replace` on what it prints, which only a
   * string has: an `Error` (a failed fetch, a binary that does not
   * compile) makes it throw before `_resolveRunCommand` is reached, and
   * the run stays open.
   */
  function FailAsWritten(g: Guard, isText: bool, suppress: bool): (r: Guard)
  {
    if isText || suppress then Release(g) else Guard(false, g.pending)
  }

  /**
   * An interactive run whose module load rejects with an `Error`, outputs
   * enabled, as written: the flag is clear but the run is still open, so
   * the guard is inconsistent and the `await` of the line never returns.
   * A string rejection, and (as intended) every rejection, leaves the
   * guard free.
   */
  lemma ErrorRejectionHangs()
    ensures var g := FailAsWritten(Guard(true, WebTerm.Pending.InteractiveRun), false, false);
      !g.running && g.pending == WebTerm.Pending.InteractiveRun && !Consistent(g)
    ensures FailAsWritten(Guard(true, WebTerm.Pending.InteractiveRun), true, false) == Release(Guard(true, WebTerm.Pending.InteractiveRun))
    ensures Consistent(Release(Guard(true, WebTerm.Pending.InteractiveRun)))
  {
  }

  /*
   * Output.
   */

  /**
   * `_stdout` as written: `value.replace("\n", "\r\n")` replaces only the
   * first line feed, so a later one reaches the terminal bare.
   */
  lemma SecondLineFeedBare()
    ensures ExpandFirstNewline([LF, LF]) == [CR, LF, LF]
    ensures !NoBareLF(ExpandFirstNewline([LF, LF]))
    ensures NoBareLF(ExpandNewlines([LF, LF]))
  {
    var s: JsString := [LF, LF];
    assert IndexOf(s, LF) == 0;
    var t := ExpandFirstNewline(s);
    assert t[2] == LF && t[1] != CR;
    ExpandNewlinesNoBareLF(s);
  }

  /** What one event puts on the terminal surface. */
  function EventText(e: LineEvent): (r: JsString)
    ensures r != [] ==> e.Wrote? || e.Printed?
  {
    if e.Wrote? || e.Printed? then e.text else []
  }

  /** Everything a sequence of events writes to the terminal. */
  function Written(events: seq<LineEvent>): JsString
  {
    if events == [] then []
    else Written(events[..|events| - 1]) + EventText(events[|events| - 1])
  }

  /** The output buffer after one event: printed text is appended, a reset empties it. */
  function BufferStep(buffer: JsString, e: LineEvent): (r: JsString)
    ensures e.Printed? ==> r == buffer + e.text
    ensures e.Cleared? ==> r == []
    ensures !e.Printed? && !e.Cleared? ==> r == buffer
  {
    match e
    case Printed(text) => buffer + text
    case Cleared => []
    case _ => buffer
  }

  /** The output buffer after a sequence of events. */
  function BufferAfter(buffer: JsString, events: seq<LineEvent>): JsString
  {
    if events == [] then buffer
    else BufferStep(BufferAfter(buffer, events[..|events| - 1]), events[|events| - 1])
  }

  /** The files stored last, or `files` if the events store none. */
  function LastStored(files: seq<File>, events: seq<LineEvent>): seq<File>
  {
    if events == [] then files
    else if events[|events| - 1].Stored? then events[|events| - 1].files
    else LastStored(files, events[..|events| - 1])
  }

  /** Whether an interactive run was started (which lifts output suppression). */
  predicate Launched(events: seq<LineEvent>)
  {
    events != [] && (events[|events| - 1].Interactive? || Launched(events[..|events| - 1]))
  }

  /** The modules a sequence of events adds to the cache, in order. */
  function CachedEntries(events: seq<LineEvent>): seq<WebTerm.ModuleEntry>
  {
    if events == [] then []
    else
      var e := events[|events| - 1];
      CachedEntries(events[..|events| - 1]) + (if e.ModuleReady? && e.compiledNow then [e.entry] else [])
  }

  lemma {:induction false} CachedAppend(a: seq<LineEvent>, b: seq<LineEvent>)
    ensures CachedEntries(a + b) == CachedEntries(a) + CachedEntries(b)
    decreases |b|
  {
    if b == [] {
      assert a + b == a;
    } else {
      assert (a + b)[..|a + b| - 1] == a + b[..|b| - 1];
      CachedAppend(a, b[..|b| - 1]);
    }
  }

  /** Events that resolve no module add nothing to the cache. */
  lemma {:induction false} NothingCached(events: seq<LineEvent>)
    requires forall e :: e in events ==> !e.ModuleReady?
    ensures CachedEntries(events) == []
    decreases |events|
  {
    if events != [] {
      assert events[|events| - 1] in events;
      assert forall e :: e in events[..|events| - 1] ==> e in events;
      NothingCached(events[..|events| - 1]);
    }
  }

  /**
   * One more event: its text is written, the buffer takes its step, and
   * stored files, cached modules and launches follow it.
   */
  lemma AppendEvent(files: seq<File>, buffer: JsString, before: seq<LineEvent>, e: LineEvent)
    ensures Written(before + [e]) == Written(before) + EventText(e)
    ensures BufferAfter(buffer, before + [e]) == BufferStep(BufferAfter(buffer, before), e)
    ensures LastStored(files, before + [e]) == if e.Stored? then e.files else LastStored(files, before)
    ensures CachedEntries(before + [e]) == CachedEntries(before) + (if e.ModuleReady? && e.compiledNow then [e.entry] else [])
    ensures Launched(before + [e]) <==> Launched(before) || e.Interactive?
  {
    assert (before + [e])[..|before|] == before;
  }

  /*
   * Callback output.
   */

  /** What `_stdout` prints for each yielded value, nothing while outputs are suppressed. */
  function Prints(values: seq<JsString>, suppress: bool): (r: seq<LineEvent>)
    ensures suppress ==> r == []
    ensures !suppress ==> |r| == |values|
    ensures !suppress ==> forall i :: 0 <= i < |values| ==> r[i] == Printed(ExpandNewlines(values[i]))
  {
    if suppress || values == [] then []
    else Prints(values[..|values| - 1], suppress) + [Printed(ExpandNewlines(values[|values| - 1]))]
  }

  /** The generator loop's preset as written: the yields are appended to the preset the stage received. */
  function AccumulatedAsWritten(preset: Option<JsString>, values: seq<JsString>): (r: Option<JsString>)
  {
    if values == [] then preset
    else Some((if preset.Some? then preset.value else []) + Flatten(values))
  }

  /**
   * The `for await` loop as written: `if(stdinPreset == null) stdinPreset = ""`
   * then `stdinPreset += data`. The preset is the one the previous stage
   * left, not a fresh one.
   */
  method AccumulateAsWritten(preset: Option<JsString>, values: seq<JsString>) returns (r: Option<JsString>)
    ensures r == AccumulatedAsWritten(preset, values)
    ensures values != [] ==> r.Some?
  {
    r := preset;
    var i := 0;
    while i < |values|
      invariant 0 <= i <= |values|
      invariant r == AccumulatedAsWritten(preset, values[..i])
    {
      ghost var next := values[..i + 1];
      assert next[..i] == values[..i] && next[i] == values[i];
      assert Flatten(next) == Flatten(values[..i]) + values[i];
      var base := if preset.Some? then preset.value else [];
      if i == 0 {
        assert values[..i] == [] && r == preset;
      } else {
        assert r == Some(base + Flatten(values[..i]));
      }
      if r.None? {
        r := Some([]);
      }
      assert r.value == base + Flatten(values[..i]);
      r := Some(r.value + values[i]);
      assert r.value == base + Flatten(next);
      i := i + 1;
    }
    assert values[..i] == values;
  }

  /**
   * A generator stage after `a | gen`: the generator's yields are appended
   * to `a`'s output instead of replacing it.
   */
  lemma PresetLeaksIntoGenerator(previous: JsString, yielded: JsString)
    requires previous != []
    ensures AccumulatedAsWritten(Some(previous), [yielded]) == Some(previous + yielded)
    ensures AccumulatedAsWritten(Some(previous), [yielded]) != Some(Flatten([yielded]))
  {
    assert [yielded][..0] == [];
    assert Flatten([yielded]) == Flatten([]) + yielded;
    assert Flatten([yielded]) == yielded;
    assert |previous + yielded| > |yielded|;
  }

  /**
   * The generator loop as evidently intended: the preset starts from "" in
   * every stage and collects the yields; each value is printed with
   * `_stdout` unless outputs are suppressed.
   */
  method DrainGenerator(values: seq<JsString>, suppress: bool) returns (preset: JsString, events: seq<LineEvent>)
    ensures preset == Flatten(values)
    ensures events == Prints(values, suppress)
  {
    preset := [];
    events := [];
    var i := 0;
    while i < |values|
      invariant 0 <= i <= |values|
      invariant preset == Flatten(values[..i])
      invariant events == Prints(values[..i], suppress)
    {
      ghost var next := values[..i + 1];
      assert next[..i] == values[..i] && next[i] == values[i];
      assert Flatten(next) == Flatten(values[..i]) + values[i];
      preset := preset + values[i];
      if !suppress {
        events := events + [Printed(ExpandNewlines(values[i]))];
      }
      i := i + 1;
    }
    assert values[..i] == values;
  }

  /*
   * The line as a sequence of stages.
   */

  /**
   * A callback's stage: the output is written to the terminal at every
   * stage (a promise's and a plain value's directly, a generator's through
   * `_stdout`) and always becomes the next preset. A rejection, or
   * `undefined` returned, is logged and ends the line.
   */
  function CallbackStep(name: JsString, argv: seq<JsString>, preset: Option<JsString>,
                        result: WebTerm.CallbackResult, suppress: bool): Step
  {
    var called := [Called(name, argv)];
    match result
    case Thenable(truthy, text) =>
      var output := if truthy then text else [];
      Step(called + [Wrote(output)], Some(output), false)
    case Rejects(reason) => Step(called + [Logged(reason)], preset, true)
    case Generator(values) => Step(called + Prints(values, suppress), Some(Flatten(values)), false)
    case Plain(text) => Step(called + [Wrote(text)], Some(text), false)
    case NoValue => Step(called + [Logged(WebTerm.THEN_OF_UNDEFINED)], preset, true)
  }

  /**
   * A WebAssembly stage: headless inside a pipe (its stdout becomes the next
   * preset), interactive at the end (announced through `_stdout`, its files
   * stored, the preset reset). A held guard or a failed headless load is
   * logged and ends the line; a failed interactive load is printed.
   */
  function WasmStep(name: WebTerm.Name, argv: seq<JsString>, preset: Option<JsString>,
                    end: WasmEnd, last: bool, held: bool): Step
  {
    if held then Step([Logged(ALREADY_RUNNING)], preset, true)
    else if !last then
      match end
      case Finished(entry, compiledNow, stdout, _) =>
        Step([Headless(name, argv, preset), ModuleReady(entry, compiledNow), Wrote(WebTerm.CLEAR_LINE), Cleared], Some(stdout), false)
      case LoadFailed(reason, _) => Step([Headless(name, argv, preset), Logged(reason)], preset, true)
    else
      var start := [Interactive(name, argv, preset), Printed(WebTerm.LOADING)];
      match end
      case Finished(entry, compiledNow, _, files) =>
        Step(start + [ModuleReady(entry, compiledNow), Wrote(WebTerm.CLEAR_LINE), Cleared, Stored(files)], None, false)
      case LoadFailed(reason, _) => Step(start + [Printed(ExpandNewlines(reason))], None, false)
  }

  /**
   * `_getOrInitWasmModule` against the cache `modules`: the last cached
   * entry with the name is reused; otherwise the binary is fetched from
   * `path/name.wasm`. A failed request rejects with its `Error`, an answer
   * that is not "ok" with the string "module not found: " and the URL, a
   * failed compile with its `Error`; a compiled module is new.
   */
  function Resolve(binaryPath: JsString, modules: seq<WebTerm.ModuleEntry>, name: WebTerm.Name, f: Fetch): (r: Resolution)
    ensures r.Ready? ==> r.entry.name == name
    ensures WebTerm.LastMatch(modules, name).Some? ==> r == Ready(WebTerm.LastMatch(modules, name).value, false)
    ensures r.Ready? && r.compiledNow <==> WebTerm.LastMatch(modules, name).None? && r.Ready?
    ensures r.Unavailable? ==> WebTerm.LastMatch(modules, name).None?
    ensures r.Unavailable? && r.isText <==> r.Unavailable? && f.networkError.None? && !f.ok
    ensures r.Unavailable? && r.isText ==> r.reason == NOT_FOUND + WebTerm.ModuleUrl(binaryPath, name)
  {
    var cached := WebTerm.LastMatch(modules, name);
    if cached.Some? then Ready(cached.value, false)
    else if f.networkError.Some? then Unavailable(f.networkError.value, false)
    else if !f.ok then Unavailable(NOT_FOUND + WebTerm.ModuleUrl(binaryPath, name), true)
    else if f.compileError.Some? then Unavailable(f.compileError.value, false)
    else Ready(WebTerm.ModuleEntry(name, WebTerm.Emscripten, f.compiled), true)
  }

  /** How a WebAssembly stage ends against the cache: the program runs once its module resolves. */
  function StageEnd(binaryPath: JsString, modules: seq<WebTerm.ModuleEntry>, name: WebTerm.Name, f: Fetch,
                    out: WebTerm.RunOutput): (end: WasmEnd)
    ensures end.Finished? <==> Resolve(binaryPath, modules, name, f).Ready?
    ensures end.Finished? ==>
      end.entry == Resolve(binaryPath, modules, name, f).entry && end.compiledNow == Resolve(binaryPath, modules, name, f).compiledNow
    ensures end.Finished? ==> end.stdout == out.stdout && end.files == out.files
    ensures end.LoadFailed? ==>
      end.reason == Resolve(binaryPath, modules, name, f).reason && end.isText == Resolve(binaryPath, modules, name, f).isText
  {
    match Resolve(binaryPath, modules, name, f)
    case Ready(entry, compiledNow) => Finished(entry, compiledNow, out.stdout, out.files)
    case Unavailable(reason, isText) => LoadFailed(reason, isText)
  }

  /** A stage's end is its module's resolution, with the run's stdout and files when the module is ready. */
  lemma ResolvedEnd(binaryPath: JsString, modules: seq<WebTerm.ModuleEntry>, name: WebTerm.Name, f: Fetch, out: WebTerm.RunOutput)
    ensures var r := Resolve(binaryPath, modules, name, f);
      StageEnd(binaryPath, modules, name, f, out) ==
        if r.Ready? then Finished(r.entry, r.compiledNow, out.stdout, out.files) else LoadFailed(r.reason, r.isText)
  {
  }

  /** One stage: a registered callback first, then WebAssembly for a name nobody registered, resolved against `modules`. */
  function StageStep(commands: map<JsString, Command>, backend: Backend,
                     stage: JsString, last: bool, preset: Option<JsString>, modules: seq<WebTerm.ModuleEntry>,
                     held: bool, suppress: bool): Step
  {
    var (name, argv) := WebTerm.Parse(stage);
    if name.Some? && name.value in commands then
      match commands[name.value]
      case Callable(respond) => CallbackStep(name.value, argv, preset, respond(argv), suppress)
      case NotCallable => Step([NoFunction(name.value)], preset, false)
    else
      WasmStep(name, argv, preset,
               StageEnd(backend.binaryPath, modules, name, backend.fetch(name), backend.run(name, argv, preset, !last)), last, held)
  }

  /** The events of stages `k..`, given the preset stage `k` receives and the cache as it then is. */
  function LineFrom(commands: map<JsString, Command>, backend: Backend,
                    stages: seq<JsString>, k: nat, preset: Option<JsString>, modules: seq<WebTerm.ModuleEntry>,
                    held: bool, suppress: bool): seq<LineEvent>
    decreases |stages| - k, 1
  {
    if k >= |stages| then [] else StageAndRest(commands, backend, stages, k, preset, modules, held, suppress)
  }

  /** Stage `k`'s events, followed by the rest of the line (given the modules it cached) unless the stage stopped it. */
  function StageAndRest(commands: map<JsString, Command>, backend: Backend,
                        stages: seq<JsString>, k: nat, preset: Option<JsString>, modules: seq<WebTerm.ModuleEntry>,
                        held: bool, suppress: bool): seq<LineEvent>
    requires k < |stages|
    decreases |stages| - k, 0
  {
    var st := StageStep(commands, backend, stages[k], k == |stages| - 1, preset, modules, held, suppress);
    if st.stop then st.events
    else st.events + LineFrom(commands, backend, stages, k + 1, st.next, modules + CachedEntries(st.events), held, suppress)
  }

  /*
   * Properties of a stage and of a line.
   */

  /** A callback stage that ends the line ends it with a logged error. */
  lemma CallbackStopsOnlyWhenLogged(name: JsString, argv: seq<JsString>, preset: Option<JsString>,
                                    result: WebTerm.CallbackResult, suppress: bool)
    ensures var st := CallbackStep(name, argv, preset, result, suppress);
      st.stop <==> result.Rejects? || result.NoValue?
    ensures var st := CallbackStep(name, argv, preset, result, suppress);
      st.stop ==> st.events != [] && st.events[|st.events| - 1].Logged?
  {
  }

  /** A WebAssembly stage ends the line only on a held guard or a failed headless load, with a logged error. */
  lemma WasmStopsOnlyWhenLogged(name: WebTerm.Name, argv: seq<JsString>, preset: Option<JsString>,
                                end: WasmEnd, last: bool, held: bool)
    ensures var st := WasmStep(name, argv, preset, end, last, held);
      st.stop <==> held || (!last && end.LoadFailed?)
    ensures var st := WasmStep(name, argv, preset, end, last, held);
      st.stop ==> st.events != [] && st.events[|st.events| - 1].Logged?
  {
  }

  /** A stage that ends the line ends it with a logged error, never with text on the terminal. */
  lemma StopsOnlyWhenLogged(commands: map<JsString, Command>, backend: Backend,
                            stage: JsString, last: bool, preset: Option<JsString>, modules: seq<WebTerm.ModuleEntry>,
                            held: bool, suppress: bool)
    ensures var st := StageStep(commands, backend, stage, last, preset, modules, held, suppress);
      st.stop ==> st.events != [] && st.events[|st.events| - 1].Logged? && EventText(st.events[|st.events| - 1]) == []
  {
    var (name, argv) := WebTerm.Parse(stage);
    if name.Some? && name.value in commands {
      if commands[name.value].Callable? {
        CallbackStopsOnlyWhenLogged(name.value, argv, preset, commands[name.value].respond(argv), suppress);
      }
    } else {
      var end := StageEnd(backend.binaryPath, modules, name, backend.fetch(name), backend.run(name, argv, preset, !last));
      WasmStopsOnlyWhenLogged(name, argv, preset, end, last, held);
    }
  }

  /**
   * A callback's output becomes the next preset whatever preset the stage
   * received, and (unlike the current controller) a returned value reaches
   * the terminal even inside a pipe.
   */
  lemma CallbackOutputIsPreset(name: JsString, argv: seq<JsString>, preset: Option<JsString>,
                               result: WebTerm.CallbackResult, suppress: bool)
    requires !result.Rejects? && !result.NoValue?
    ensures var st := CallbackStep(name, argv, preset, result, suppress);
      !st.stop && st.next.Some? &&
      (result.Generator? ==> st.next == Some(Flatten(result.values))) &&
      (result.Plain? ==> st.next == Some(result.text) && Written(st.events) == result.text) &&
      (result.Thenable? && !result.truthy ==> st.next == Some([]))
  {
    var called := [Called(name, argv)];
    if result.Plain? {
      AppendEvent([], [], called, Wrote(result.text));
      assert called[..0] == [];
      assert Written(called) == Written([]) + EventText(Called(name, argv));
    }
  }

  /** While another run holds the guard, a line starts no WebAssembly run at all. */
  lemma {:induction false} HeldGuardStartsNothing(commands: map<JsString, Command>, backend: Backend,
                                                 stages: seq<JsString>, k: nat, preset: Option<JsString>,
                                                 modules: seq<WebTerm.ModuleEntry>, suppress: bool)
    ensures forall e :: e in LineFrom(commands, backend, stages, k, preset, modules, true, suppress) ==> !e.Headless? && !e.Interactive?
    decreases |stages| - k
  {
    if k < |stages| {
      var st := StageStep(commands, backend, stages[k], k == |stages| - 1, preset, modules, true, suppress);
      HeldStageStartsNothing(commands, backend, stages[k], k == |stages| - 1, preset, modules, suppress);
      if !st.stop {
        HeldGuardStartsNothing(commands, backend, stages, k + 1, st.next, modules + CachedEntries(st.events), suppress);
      }
    }
  }

  /** One stage under a held guard starts no WebAssembly run. */
  lemma HeldStageStartsNothing(commands: map<JsString, Command>, backend: Backend,
                               stage: JsString, last: bool, preset: Option<JsString>, modules: seq<WebTerm.ModuleEntry>, suppress: bool)
    ensures forall e :: e in StageStep(commands, backend, stage, last, preset, modules, true, suppress).events ==> !e.Headless? && !e.Interactive?
  {
    var (name, argv) := WebTerm.Parse(stage);
    if name.Some? && name.value in commands && commands[name.value].Callable? {
      var result := commands[name.value].respond(argv);
      if result.Generator? {
        var prints := Prints(result.values, suppress);
        assert forall i :: 0 <= i < |prints| ==> prints[i].Printed?;
      }
    }
  }

  /**
   * `cb | prog` with a callback returning a plain value and a WebAssembly
   * program, guard free: the value is written, and `prog` runs as the last
   * stage with the value as its preset.
   */
  lemma PipeThreadsCallbackOutput(commands: map<JsString, Command>, backend: Backend,
                                  a: JsString, b: JsString, modules: seq<WebTerm.ModuleEntry>, suppress: bool)
    requires PIPE !in a && PIPE !in b
    requires WebTerm.Parse(a).0.Some? && WebTerm.Parse(a).0.value in commands
    requires commands[WebTerm.Parse(a).0.value].Callable?
    requires commands[WebTerm.Parse(a).0.value].respond(WebTerm.Parse(a).1).Plain?
    requires WebTerm.Parse(b).0.None? || WebTerm.Parse(b).0.value !in commands
    ensures var (cb, args) := WebTerm.Parse(a);
      var out := commands[cb.value].respond(args).text;
      var (name, argv) := WebTerm.Parse(b);
      var end := StageEnd(backend.binaryPath, modules, name, backend.fetch(name), backend.run(name, argv, Some(out), false));
      LineFrom(commands, backend, Split(a + [PIPE] + b, PIPE), 0, None, modules, false, suppress)
        == [Called(cb.value, args), Wrote(out)] + WasmStep(name, argv, Some(out), end, true, false).events
  {
    SplitAround(a, b, PIPE);
    TwoStages(commands, backend, a, b, None, modules, false, suppress);
    var out := PlainStage(commands, backend, a, modules, suppress);
    WasmStage(commands, backend, b, true, Some(out), modules, false, suppress);
  }

  /** A first stage whose callback returns a plain value writes it, caches nothing and passes it on. */
  lemma PlainStage(commands: map<JsString, Command>, backend: Backend, a: JsString,
                   modules: seq<WebTerm.ModuleEntry>, suppress: bool) returns (out: JsString)
    requires WebTerm.Parse(a).0.Some? && WebTerm.Parse(a).0.value in commands
    requires commands[WebTerm.Parse(a).0.value].Callable?
    requires commands[WebTerm.Parse(a).0.value].respond(WebTerm.Parse(a).1).Plain?
    ensures var (cb, args) := WebTerm.Parse(a);
      out == commands[cb.value].respond(args).text &&
      StageStep(commands, backend, a, false, None, modules, false, suppress) == Step([Called(cb.value, args), Wrote(out)], Some(out), false) &&
      modules + CachedEntries([Called(cb.value, args), Wrote(out)]) == modules
  {
    var (cb, args) := WebTerm.Parse(a);
    out := commands[cb.value].respond(args).text;
    NothingCached([Called(cb.value, args), Wrote(out)]);
    assert modules + [] == modules;
  }

  /** A stage whose name nobody registered is a WebAssembly stage against the cache. */
  lemma WasmStage(commands: map<JsString, Command>, backend: Backend, stage: JsString, last: bool,
                  preset: Option<JsString>, modules: seq<WebTerm.ModuleEntry>, held: bool, suppress: bool)
    requires WebTerm.Parse(stage).0.None? || WebTerm.Parse(stage).0.value !in commands
    ensures var (name, argv) := WebTerm.Parse(stage);
      var end := StageEnd(backend.binaryPath, modules, name, backend.fetch(name), backend.run(name, argv, preset, !last));
      StageStep(commands, backend, stage, last, preset, modules, held, suppress) == WasmStep(name, argv, preset, end, last, held)
  {
  }

  /** A line of two stages: the first one's events, then (unless it stopped) the last one's, fed its output and cache. */
  lemma TwoStages(commands: map<JsString, Command>, backend: Backend,
                  a: JsString, b: JsString, preset: Option<JsString>, modules: seq<WebTerm.ModuleEntry>, held: bool, suppress: bool)
    ensures var first := StageStep(commands, backend, a, false, preset, modules, held, suppress);
      var second := StageStep(commands, backend, b, true, first.next, modules + CachedEntries(first.events), held, suppress);
      LineFrom(commands, backend, [a, b], 0, preset, modules, held, suppress) ==
        if first.stop then first.events else first.events + second.events
  {
    var stages := [a, b];
    var first := StageStep(commands, backend, a, false, preset, modules, held, suppress);
    var cache := modules + CachedEntries(first.events);
    var second := StageStep(commands, backend, b, true, first.next, cache, held, suppress);
    assert LineFrom(commands, backend, stages, 2, second.next, cache + CachedEntries(second.events), held, suppress) == [];
    assert second.events + [] == second.events;
    assert LineFrom(commands, backend, stages, 1, first.next, cache, held, suppress) == second.events;
  }

  /**
   * The stdin request's caption: after the buffer was reset and `prompt`
   * printed without a line feed, the caption is `prompt` exactly.
   */
  lemma CaptionIsPrompt(prompt: JsString)
    requires LF !in prompt
    ensures LastLine(BufferAfter([], [Cleared, Printed(ExpandNewlines(prompt))])) == prompt
  {
    WebTerm.ExpandWithoutLF(prompt);
    var events := [Cleared, Printed(ExpandNewlines(prompt))];
    assert events[..1] == [Cleared];
    assert [Cleared][..0] == [];
    assert BufferAfter([], events) == prompt;
    assert IndexOf(prompt, LF) < 0;
  }

  /** A stage refused by a held guard only logs: nothing written, printed, stored, cached or launched. */
  lemma HeldEffect(files: seq<File>, buffer: JsString, name: WebTerm.Name, argv: seq<JsString>,
                   preset: Option<JsString>, end: WasmEnd, last: bool)
    ensures var st := WasmStep(name, argv, preset, end, last, true);
      Written(st.events) == [] && BufferAfter(buffer, st.events) == buffer &&
      LastStored(files, st.events) == files && CachedEntries(st.events) == [] && !Launched(st.events)
  {
    AppendEvent(files, buffer, [], Logged(ALREADY_RUNNING));
    assert [] + [Logged(ALREADY_RUNNING)] == [Logged(ALREADY_RUNNING)];
  }

  /**
   * A headless stage with the guard free: a finished run clears the last
   * line and the output buffer and caches its module if compiled just now;
   * a failed load writes nothing; no files are stored and no interactive
   * run starts.
   */
  lemma HeadlessEffect(files: seq<File>, buffer: JsString, name: WebTerm.Name, argv: seq<JsString>,
                       preset: Option<JsString>, end: WasmEnd)
    ensures var st := WasmStep(name, argv, preset, end, false, false);
      Written(st.events) == (if end.Finished? then WebTerm.CLEAR_LINE else []) &&
      BufferAfter(buffer, st.events) == (if end.Finished? then [] else buffer) &&
      LastStored(files, st.events) == files && !Launched(st.events) &&
      CachedEntries(st.events) == (if end.Finished? && end.compiledNow then [end.entry] else [])
  {
    var start := Headless(name, argv, preset);
    if end.Finished? {
      HeadlessFinishedEffect(files, buffer, start, end.entry, end.compiledNow, WebTerm.CLEAR_LINE);
    } else {
      HeadlessFailedEffect(files, buffer, start, end.reason);
    }
  }

  /** A headless run that finished: its module is resolved, the line and the buffer are cleared. */
  lemma HeadlessFinishedEffect(files: seq<File>, buffer: JsString, start: LineEvent,
                               entry: WebTerm.ModuleEntry, compiledNow: bool, clear: JsString)
    requires start.Headless?
    ensures var events := [start, ModuleReady(entry, compiledNow), Wrote(clear), Cleared];
      Written(events) == clear && BufferAfter(buffer, events) == [] &&
      LastStored(files, events) == files && !Launched(events) &&
      CachedEntries(events) == (if compiledNow then [entry] else [])
  {
    var e2 := [start, ModuleReady(entry, compiledNow)];
    ReadyAfter(files, start, entry, compiledNow);
    ClearedEffect(files, buffer, e2, clear);
    assert e2 + [Wrote(clear), Cleared] == [start, ModuleReady(entry, compiledNow), Wrote(clear), Cleared];
  }

  /** A headless start followed by the resolved module: nothing written or stored, only the new module cached. */
  lemma ReadyAfter(files: seq<File>, start: LineEvent, entry: WebTerm.ModuleEntry, compiledNow: bool)
    requires start.Headless?
    ensures var events := [start, ModuleReady(entry, compiledNow)];
      Written(events) == [] && LastStored(files, events) == files && !Launched(events) &&
      CachedEntries(events) == (if compiledNow then [entry] else [])
  {
    AppendEvent(files, [], [], start);
    assert [] + [start] == [start];
    AppendEvent(files, [], [start], ModuleReady(entry, compiledNow));
    assert [start] + [ModuleReady(entry, compiledNow)] == [start, ModuleReady(entry, compiledNow)];
  }

  /** A headless run whose module failed to load: only the console hears of it. */
  lemma HeadlessFailedEffect(files: seq<File>, buffer: JsString, start: LineEvent, reason: JsString)
    requires start.Headless?
    ensures var events := [start, Logged(reason)];
      Written(events) == [] && BufferAfter(buffer, events) == buffer &&
      LastStored(files, events) == files && !Launched(events) && CachedEntries(events) == []
  {
    var e1 := [start];
    AppendEvent(files, buffer, [], start);
    assert [] + [start] == e1;
    AppendEvent(files, buffer, e1, Logged(reason));
    assert e1 + [Logged(reason)] == [start, Logged(reason)];
  }

  /** An interactive run is announced: nothing is written for the start, then its notice is printed. */
  lemma NoticeEffect(files: seq<File>, buffer: JsString, start: LineEvent, notice: JsString)
    requires start.Interactive?
    ensures var events := [start, Printed(notice)];
      Written(events) == notice && BufferAfter(buffer, events) == buffer + notice &&
      LastStored(files, events) == files && Launched(events) && CachedEntries(events) == []
  {
    var e1 := [start];
    AppendEvent(files, buffer, [], start);
    assert [] + [start] == e1;
    AppendEvent(files, buffer, e1, Printed(notice));
    assert e1 + [Printed(notice)] == [start, Printed(notice)];
  }

  /**
   * An interactive run that finished: after its notice the module is
   * resolved (and cached if compiled just now), the line and the buffer
   * are cleared and its files stored.
   */
  lemma FinishedEffect(files: seq<File>, buffer: JsString, start: LineEvent, notice: JsString,
                       entry: WebTerm.ModuleEntry, compiledNow: bool, clear: JsString, stored: seq<File>)
    requires start.Interactive?
    ensures var events := [start, Printed(notice)] + [ModuleReady(entry, compiledNow), Wrote(clear), Cleared, Stored(stored)];
      Written(events) == notice + clear && BufferAfter(buffer, events) == [] &&
      LastStored(files, events) == stored && Launched(events) &&
      CachedEntries(events) == (if compiledNow then [entry] else [])
  {
    NoticeEffect(files, buffer, start, notice);
    FinishedTail(files, buffer, [start, Printed(notice)], entry, compiledNow, clear, stored);
  }

  /** The events after the notice of a finished run: the module, the line clear and the stored files. */
  lemma FinishedTail(files: seq<File>, buffer: JsString, before: seq<LineEvent>,
                     entry: WebTerm.ModuleEntry, compiledNow: bool, clear: JsString, stored: seq<File>)
    ensures var events := before + [ModuleReady(entry, compiledNow), Wrote(clear), Cleared, Stored(stored)];
      Written(events) == Written(before) + clear && BufferAfter(buffer, events) == [] &&
      LastStored(files, events) == stored && (Launched(events) <==> Launched(before)) &&
      CachedEntries(events) == CachedEntries(before) + (if compiledNow then [entry] else [])
  {
    var e3 := before + [ModuleReady(entry, compiledNow), Wrote(clear), Cleared];
    assert e3 + [Stored(stored)] == before + [ModuleReady(entry, compiledNow), Wrote(clear), Cleared, Stored(stored)];
    ReadyCleared(files, buffer, before, entry, compiledNow, clear);
    AppendEvent(files, buffer, e3, Stored(stored));
  }

  /** A module ready and the line cleared: the clearing text is written, the buffer emptied, a module compiled just now cached. */
  lemma ReadyCleared(files: seq<File>, buffer: JsString, before: seq<LineEvent>,
                     entry: WebTerm.ModuleEntry, compiledNow: bool, clear: JsString)
    ensures var events := before + [ModuleReady(entry, compiledNow), Wrote(clear), Cleared];
      Written(events) == Written(before) + clear && BufferAfter(buffer, events) == [] &&
      LastStored(files, events) == LastStored(files, before) && (Launched(events) <==> Launched(before)) &&
      CachedEntries(events) == CachedEntries(before) + (if compiledNow then [entry] else [])
  {
    var e1 := before + [ModuleReady(entry, compiledNow)];
    assert e1 + [Wrote(clear), Cleared] == before + [ModuleReady(entry, compiledNow), Wrote(clear), Cleared];
    AppendEvent(files, buffer, before, ModuleReady(entry, compiledNow));
    ClearedEffect(files, buffer, e1, clear);
  }

  /** Clearing the line: the clearing text is written and the buffer emptied; nothing else changes. */
  lemma ClearedEffect(files: seq<File>, buffer: JsString, before: seq<LineEvent>, clear: JsString)
    ensures var events := before + [Wrote(clear), Cleared];
      Written(events) == Written(before) + clear && BufferAfter(buffer, events) == [] &&
      LastStored(files, events) == LastStored(files, before) && CachedEntries(events) == CachedEntries(before) &&
      (Launched(events) <==> Launched(before))
  {
    var e3 := before + [Wrote(clear)];
    AppendEvent(files, buffer, before, Wrote(clear));
    AppendEvent(files, buffer, e3, Cleared);
    assert e3 + [Cleared] == before + [Wrote(clear), Cleared];
  }

  /** An interactive run whose module failed to load: the reason is printed after the notice and nothing is cached. */
  lemma FailedEffect(files: seq<File>, buffer: JsString, start: LineEvent, notice: JsString, reason: JsString)
    requires start.Interactive?
    ensures var events := [start, Printed(notice)] + [Printed(reason)];
      Written(events) == notice + reason && BufferAfter(buffer, events) == buffer + notice + reason &&
      LastStored(files, events) == files && Launched(events) && CachedEntries(events) == []
  {
    var e2 := [start, Printed(notice)];
    NoticeEffect(files, buffer, start, notice);
    AppendEvent(files, buffer, e2, Printed(reason));
    assert e2 + [Printed(reason)] == [start, Printed(notice)] + [Printed(reason)];
  }

  /**
   * The last stage with the guard free: the loading notice is printed;
   * then a finished run resolves its module, clears the line and the
   * buffer and stores its files, while a failed load prints the reason
   * after the notice.
   */
  lemma InteractiveEffect(files: seq<File>, buffer: JsString, name: WebTerm.Name, argv: seq<JsString>,
                          preset: Option<JsString>, end: WasmEnd)
    ensures var st := WasmStep(name, argv, preset, end, true, false);
      Written(st.events) == WebTerm.LOADING + (if end.Finished? then WebTerm.CLEAR_LINE else ExpandNewlines(end.reason)) &&
      BufferAfter(buffer, st.events) == (if end.Finished? then [] else buffer + WebTerm.LOADING + ExpandNewlines(end.reason)) &&
      LastStored(files, st.events) == (if end.Finished? then end.files else files) && Launched(st.events) &&
      CachedEntries(st.events) == (if end.Finished? && end.compiledNow then [end.entry] else [])
  {
    if end.Finished? {
      FinishedEffect(files, buffer, Interactive(name, argv, preset), WebTerm.LOADING, end.entry, end.compiledNow,
                     WebTerm.CLEAR_LINE, end.files);
    } else {
      FailedEffect(files, buffer, Interactive(name, argv, preset), WebTerm.LOADING, ExpandNewlines(end.reason));
    }
  }

  class Terminal {
    /** Whether a background worker exists (the prompts fallback has none). */
    const hasWorker: bool
    /** Where the binaries are served from (`_emscrWasmBinaryPath`). */
    const binaryPath: JsString
    var commands: map<JsString, Command>
    var isRunningCommand: bool
    /** The run whose promise is still open, if any. */
    var pending: WebTerm.Pending
    var suppressOutputs: bool
    /** What `_stdout` printed since the buffer was last reset. */
    var outputBuffer: JsString
    /** Everything written to the terminal surface. */
    var written: JsString
    var wasmFsFiles: seq<File>
    var modules: seq<WebTerm.ModuleEntry>

    function GuardState(): Guard
      reads this
    {
      Guard(isRunningCommand, pending)
    }

    /** The flag is set exactly while a run's promise is open. */
    ghost predicate Valid()
      reads this
    {
      Consistent(GuardState())
    }

    constructor (hasWorker: bool, binaryPath: JsString)
      ensures Valid() && this.hasWorker == hasWorker && this.binaryPath == binaryPath
      ensures commands == map[] && GuardState() == Guard(false, WebTerm.Pending.Idle) && !suppressOutputs
      ensures outputBuffer == [] && written == [] && wasmFsFiles == [] && modules == []
    {
      this.hasWorker := hasWorker;
      this.binaryPath := binaryPath;
      commands := map[];
      isRunningCommand := false;
      pending := WebTerm.Pending.Idle;
      suppressOutputs := false;
      outputBuffer := [];
      written := [];
      wasmFsFiles := [];
      modules := [];
    }

    /** `registerCommand`: a later registration under the same name replaces the earlier. */
    method RegisterCommand(name: JsString, entry: Command)
      modifies this
      ensures commands.Keys == old(commands.Keys) + {name}
      ensures forall n :: n in old(commands) && n != name ==> n in commands && commands[n] == old(commands)[n]
      ensures name in commands && commands[name] == entry
      ensures GuardState() == old(GuardState()) && suppressOutputs == old(suppressOutputs)
      ensures outputBuffer == old(outputBuffer) && written == old(written)
      ensures wasmFsFiles == old(wasmFsFiles) && modules == old(modules)
    {
      commands := commands[name := entry];
    }

    /**
     * `_stdout` (and `_stderr`, the same function), with every line feed
     * turned into "\r\n": nothing while outputs are suppressed; otherwise
     * the value (a number as one character) is appended to the output
     * buffer and written. Writing `undefined` throws.
     */
    method Stdout(value: Option<Chunk>) returns (thrown: Option<JsString>)
      modifies this
      ensures thrown.Some? <==> !suppressOutputs && value.None?
      ensures thrown.Some? ==> thrown.value == WebTerm.REPLACE_OF_UNDEFINED
      ensures suppressOutputs || value.None? ==> written == old(written) && outputBuffer == old(outputBuffer)
      ensures !suppressOutputs && value.Some? ==>
        written == old(written) + ExpandNewlines(ChunkText(value.value)) &&
        outputBuffer == old(outputBuffer) + ExpandNewlines(ChunkText(value.value))
      ensures GuardState() == old(GuardState()) && suppressOutputs == old(suppressOutputs)
      ensures commands == old(commands) && wasmFsFiles == old(wasmFsFiles) && modules == old(modules)
    {
      if suppressOutputs {
        return None;
      }
      if value.None? {
        return Some(WebTerm.REPLACE_OF_UNDEFINED);
      }
      var text := ExpandNewlines(ChunkText(value.value));
      outputBuffer := outputBuffer + text;
      written := written + text;
      thrown := None;
    }

    /** `_stdout` as written: only the first line feed becomes "\r\n" (see `SecondLineFeedBare`). */
    method StdoutAsWritten(value: Option<Chunk>) returns (thrown: Option<JsString>)
      modifies this
      ensures thrown.Some? <==> !suppressOutputs && value.None?
      ensures suppressOutputs || value.None? ==> written == old(written) && outputBuffer == old(outputBuffer)
      ensures !suppressOutputs && value.Some? ==>
        written == old(written) + ExpandFirstNewline(ChunkText(value.value)) &&
        outputBuffer == old(outputBuffer) + ExpandFirstNewline(ChunkText(value.value))
      ensures GuardState() == old(GuardState()) && suppressOutputs == old(suppressOutputs)
      ensures commands == old(commands) && wasmFsFiles == old(wasmFsFiles) && modules == old(modules)
    {
      if suppressOutputs {
        return None;
      }
      if value.None? {
        return Some(WebTerm.REPLACE_OF_UNDEFINED);
      }
      var text := ExpandFirstNewline(ChunkText(value.value));
      outputBuffer := outputBuffer + text;
      written := written + text;
      thrown := None;
    }

    /**
     * The synchronous part of `runCommand`: a set flag throws and changes
     * nothing; otherwise the flag is set, suppression is lifted and the
     * loading notice is printed.
     */
    method RunCommand() returns (thrown: Option<JsString>)
      requires Valid()
      modifies this
      ensures Valid()
      ensures (GuardState(), thrown) == Take(old(GuardState()), WebTerm.Pending.InteractiveRun)
      ensures old(isRunningCommand) ==>
        written == old(written) && outputBuffer == old(outputBuffer) && suppressOutputs == old(suppressOutputs)
      ensures !old(isRunningCommand) ==>
        !suppressOutputs && written == old(written) + WebTerm.LOADING && outputBuffer == old(outputBuffer) + WebTerm.LOADING
      ensures commands == old(commands) && wasmFsFiles == old(wasmFsFiles) && modules == old(modules)
    {
      if isRunningCommand {
        return Some(ALREADY_RUNNING);
      }
      isRunningCommand := true;
      pending := WebTerm.Pending.InteractiveRun;
      suppressOutputs := false;
      // `_stdout` with outputs just enabled prints the notice as it is (`WebTerm.LoadingUnchanged`)
      outputBuffer := outputBuffer + WebTerm.LOADING;
      written := written + WebTerm.LOADING;
      thrown := None;
    }

    /** The synchronous part of `runCommandHeadless`: the same flag, nothing printed. */
    method RunCommandHeadless() returns (thrown: Option<JsString>)
      requires Valid()
      modifies this
      ensures Valid()
      ensures (GuardState(), thrown) == Take(old(GuardState()), WebTerm.Pending.HeadlessRun)
      ensures written == old(written) && outputBuffer == old(outputBuffer) && suppressOutputs == old(suppressOutputs)
      ensures commands == old(commands) && wasmFsFiles == old(wasmFsFiles) && modules == old(modules)
    {
      if isRunningCommand {
        return Some(ALREADY_RUNNING);
      }
      isRunningCommand := true;
      pending := WebTerm.Pending.HeadlessRun;
      thrown := None;
    }

    /** The module is resolved: the last line is cleared and the output buffer reset before the run. */
    method OnModuleReady()
      modifies this
      ensures written == old(written) + WebTerm.CLEAR_LINE && outputBuffer == []
      ensures GuardState() == old(GuardState()) && suppressOutputs == old(suppressOutputs)
      ensures commands == old(commands) && wasmFsFiles == old(wasmFsFiles) && modules == old(modules)
    {
      written := written + WebTerm.CLEAR_LINE;
      outputBuffer := [];
    }

    /** An interactive run's `onFinish`: the flag is cleared, the files kept, the promise resolved. */
    method OnFinish(files: seq<File>) returns (s: WebTerm.Settlement)
      modifies this
      ensures Valid() && GuardState() == Release(old(GuardState())) && wasmFsFiles == files
      ensures s == if old(pending) == WebTerm.Pending.InteractiveRun then WebTerm.Settlement.Resolved else WebTerm.Settlement.Unsettled
      ensures written == old(written) && outputBuffer == old(outputBuffer) && suppressOutputs == old(suppressOutputs)
      ensures commands == old(commands) && modules == old(modules)
    {
      isRunningCommand := false;
      wasmFsFiles := files;
      s := if pending == WebTerm.Pending.InteractiveRun then WebTerm.Settlement.Resolved else WebTerm.Settlement.Unsettled;
      pending := WebTerm.Pending.Idle;
    }

    /** A headless run's `onFinish`: the flag is cleared and the promise resolves with the outputs. */
    method OnHeadlessFinish(result: HeadlessResult) returns (s: WebTerm.Settlement)
      modifies this
      ensures Valid() && GuardState() == Release(old(GuardState()))
      ensures s == if old(pending) == WebTerm.Pending.HeadlessRun then WebTerm.Settlement.ResolvedWith(result.stdout) else WebTerm.Settlement.Unsettled
      ensures written == old(written) && outputBuffer == old(outputBuffer) && suppressOutputs == old(suppressOutputs)
      ensures commands == old(commands) && wasmFsFiles == old(wasmFsFiles) && modules == old(modules)
    {
      isRunningCommand := false;
      s := if pending == WebTerm.Pending.HeadlessRun then WebTerm.Settlement.ResolvedWith(result.stdout) else WebTerm.Settlement.Unsettled;
      pending := WebTerm.Pending.Idle;
    }

    /**
     * Module resolution failed: the flag is cleared. A headless run's
     * promise rejects; an interactive run prints the reason through
     * `_stderr` and resolves.
     */
    method OnModuleFailure(reason: JsString, headless: bool) returns (s: WebTerm.Settlement)
      modifies this
      ensures Valid() && GuardState() == Release(old(GuardState()))
      ensures headless ==>
        s == (if old(pending) == WebTerm.Pending.HeadlessRun then WebTerm.Settlement.Rejected(reason) else WebTerm.Settlement.Unsettled) &&
        written == old(written) && outputBuffer == old(outputBuffer)
      ensures !headless ==>
        s == (if old(pending) == WebTerm.Pending.InteractiveRun then WebTerm.Settlement.Resolved else WebTerm.Settlement.Unsettled)
      ensures !headless && old(suppressOutputs) ==> written == old(written) && outputBuffer == old(outputBuffer)
      ensures !headless && !old(suppressOutputs) ==>
        written == old(written) + ExpandNewlines(reason) && outputBuffer == old(outputBuffer) + ExpandNewlines(reason)
      ensures suppressOutputs == old(suppressOutputs)
      ensures commands == old(commands) && wasmFsFiles == old(wasmFsFiles) && modules == old(modules)
    {
      isRunningCommand := false;
      var open := pending;
      pending := WebTerm.Pending.Idle;
      if headless {
        s := if open == WebTerm.Pending.HeadlessRun then WebTerm.Settlement.Rejected(reason) else WebTerm.Settlement.Unsettled;
      } else {
        var none := Stdout(Some(Text(reason)));
        s := if open == WebTerm.Pending.InteractiveRun then WebTerm.Settlement.Resolved else WebTerm.Settlement.Unsettled;
      }
    }

    /**
     * The module-load `catch`es as written. A headless run clears the flag
     * and its promise rejects. An interactive run clears the flag and hands
     * the rejection to `_stderr`: with outputs suppressed nothing is
     * printed; a string is printed (only its first line feed expanded) and
     * the run resolves; an `Error` makes `_stderr` throw, so nothing is
     * printed and the run stays open (see `ErrorRejectionHangs`).
     */
    method OnModuleFailureAsWritten(reason: JsString, isText: bool, headless: bool) returns (s: WebTerm.Settlement)
      modifies this
      ensures GuardState() == if headless then Release(old(GuardState())) else FailAsWritten(old(GuardState()), isText, old(suppressOutputs))
      ensures headless ==>
        s == (if old(pending) == WebTerm.Pending.HeadlessRun then WebTerm.Settlement.Rejected(reason) else WebTerm.Settlement.Unsettled) &&
        written == old(written) && outputBuffer == old(outputBuffer)
      ensures !headless && !isText && !old(suppressOutputs) ==>
        s == WebTerm.Settlement.Unsettled && !isRunningCommand && pending == old(pending) &&
        written == old(written) && outputBuffer == old(outputBuffer)
      ensures !headless && (isText || old(suppressOutputs)) ==>
        s == (if old(pending) == WebTerm.Pending.InteractiveRun then WebTerm.Settlement.Resolved else WebTerm.Settlement.Unsettled)
      ensures !headless && old(suppressOutputs) ==> written == old(written) && outputBuffer == old(outputBuffer)
      ensures !headless && isText && !old(suppressOutputs) ==>
        written == old(written) + ExpandFirstNewline(reason) && outputBuffer == old(outputBuffer) + ExpandFirstNewline(reason)
      ensures suppressOutputs == old(suppressOutputs)
      ensures commands == old(commands) && wasmFsFiles == old(wasmFsFiles) && modules == old(modules)
    {
      isRunningCommand := false;
      var open := pending;
      if headless {
        pending := WebTerm.Pending.Idle;
        s := if open == WebTerm.Pending.HeadlessRun then WebTerm.Settlement.Rejected(reason) else WebTerm.Settlement.Unsettled;
        return;
      }
      if !suppressOutputs && !isText {
        // `replace` is not a function of an `Error`: `_stderr` throws here
        return WebTerm.Settlement.Unsettled;
      }
      var none := StdoutAsWritten(Some(Text(reason)));
      pending := WebTerm.Pending.Idle;
      s := if open == WebTerm.Pending.InteractiveRun then WebTerm.Settlement.Resolved else WebTerm.Settlement.Unsettled;
    }

    /**
     * Terminal input, with the guard released as evidently intended. Ctrl+C
     * with a worker prints "^C\r\n", suppresses further output, resolves
     * the open interactive run and rejects an open headless one with
     * "Ctrl + C", so the line stops (the worker is replaced, which is not
     * modelled). Anything else, or Ctrl+C without a worker, changes nothing.
     */
    method OnXtermData(data: JsString) returns (s: WebTerm.Settlement)
      requires Valid()
      modifies this
      ensures Valid()
      ensures data == [ETX] && hasWorker ==>
        suppressOutputs && GuardState() == Interrupt(old(GuardState())) &&
        s == (if old(pending) == WebTerm.Pending.InteractiveRun then WebTerm.Settlement.Resolved
              else if old(pending) == WebTerm.Pending.HeadlessRun then WebTerm.Settlement.Rejected(WebTerm.CTRL_C)
              else WebTerm.Settlement.Unsettled) &&
        written == old(written) + (if old(suppressOutputs) then [] else ExpandNewlines(INTERRUPTED)) &&
        outputBuffer == old(outputBuffer) + (if old(suppressOutputs) then [] else ExpandNewlines(INTERRUPTED))
      ensures !(data == [ETX] && hasWorker) ==>
        s == WebTerm.Settlement.Unsettled && GuardState() == old(GuardState()) &&
        suppressOutputs == old(suppressOutputs) && written == old(written) && outputBuffer == old(outputBuffer)
      ensures commands == old(commands) && wasmFsFiles == old(wasmFsFiles) && modules == old(modules)
    {
      s := WebTerm.Settlement.Unsettled;
      if data == [ETX] && hasWorker {
        var none := Stdout(Some(Text(INTERRUPTED)));
        suppressOutputs := true;
        if pending == WebTerm.Pending.InteractiveRun {
          s := WebTerm.Settlement.Resolved;
        } else if pending == WebTerm.Pending.HeadlessRun {
          s := WebTerm.Settlement.Rejected(WebTerm.CTRL_C);
        }
        isRunningCommand := false;
        pending := WebTerm.Pending.Idle;
      }
    }

    /**
     * `_onXtermData` as written: "^C\r\n" goes through the as-written
     * `_stdout`, and `_terminateWorker` resolves the interactive run but
     * leaves the flag set; an open headless run is never settled.
     */
    method OnXtermDataAsWritten(data: JsString) returns (s: WebTerm.Settlement)
      modifies this
      ensures data == [ETX] && hasWorker ==>
        suppressOutputs && GuardState() == InterruptAsWritten(old(GuardState())) &&
        s == (if old(pending) == WebTerm.Pending.InteractiveRun then WebTerm.Settlement.Resolved else WebTerm.Settlement.Unsettled) &&
        written == old(written) + (if old(suppressOutputs) then [] else ExpandFirstNewline(INTERRUPTED)) &&
        outputBuffer == old(outputBuffer) + (if old(suppressOutputs) then [] else ExpandFirstNewline(INTERRUPTED))
      ensures data == [ETX] && hasWorker && old(GuardState()) == Guard(true, WebTerm.Pending.InteractiveRun) ==>
        !Valid() && isRunningCommand
      ensures !(data == [ETX] && hasWorker) ==>
        s == WebTerm.Settlement.Unsettled && GuardState() == old(GuardState()) && suppressOutputs == old(suppressOutputs) &&
        written == old(written) && outputBuffer == old(outputBuffer)
      ensures commands == old(commands) && wasmFsFiles == old(wasmFsFiles) && modules == old(modules)
    {
      s := WebTerm.Settlement.Unsettled;
      if data == [ETX] && hasWorker {
        var none := StdoutAsWritten(Some(Text(INTERRUPTED)));
        suppressOutputs := true;
        if pending == WebTerm.Pending.InteractiveRun {
          s := WebTerm.Settlement.Resolved;
          pending := WebTerm.Pending.Idle;
        }
      }
    }

    /**
     * `_stdinProxy`, once the user answered `input`: the caption is shown
     * (see `Caption`), then the answer and a line feed are written into the
     * stdin window and the worker is told to go on.
     */
    method StdinProxy(shared: SharedBuffers, message: Option<JsString>, input: JsString) returns (caption: JsString)
      requires shared.Valid()
      modifies this, shared.stdin, shared.pause
      ensures message.Some? && message.value != [] ==>
        caption == message.value && written == old(written) && outputBuffer == old(outputBuffer)
      ensures message.None? || message.value == [] ==>
        caption == LastLine(old(outputBuffer)) && written == old(written) + WebTerm.CLEAR_PROMPT && outputBuffer == []
      ensures shared.stdin[..] == Filled(input + [LF], STDIN_SLOTS) && shared.pause[..] == [GO]
      ensures GuardState() == old(GuardState()) && suppressOutputs == old(suppressOutputs)
      ensures commands == old(commands) && wasmFsFiles == old(wasmFsFiles) && modules == old(modules)
    {
      caption := Caption(message);
      shared.Answer(input + [LF]);
    }

    /**
     * The caption of a stdin request: the worker's message when it has one;
     * otherwise the last line of the output buffer, and then the line is
     * cleared and the buffer reset.
     */
    method Caption(message: Option<JsString>) returns (caption: JsString)
      modifies this
      ensures message.Some? && message.value != [] ==>
        caption == message.value && written == old(written) && outputBuffer == old(outputBuffer)
      ensures message.None? || message.value == [] ==>
        caption == LastLine(old(outputBuffer)) && written == old(written) + WebTerm.CLEAR_PROMPT && outputBuffer == []
      ensures isRunningCommand == old(isRunningCommand) && pending == old(pending) && suppressOutputs == old(suppressOutputs)
      ensures commands == old(commands) && wasmFsFiles == old(wasmFsFiles) && modules == old(modules)
    {
      if message.None? || message.value == [] {
        caption := LastLine(outputBuffer);
        written := written + WebTerm.CLEAR_PROMPT;
        outputBuffer := [];
      } else {
        caption := message.value;
      }
    }

    /** The `forEach` over the module cache: the last entry with the name wins. */
    method FindModule(name: WebTerm.Name) returns (found: Option<WebTerm.ModuleEntry>)
      ensures found == WebTerm.LastMatch(modules, name)
    {
      found := None;
      var i := 0;
      while i < |modules|
        invariant 0 <= i <= |modules|
        invariant found == WebTerm.LastMatch(modules[..i], name)
      {
        assert modules[..i + 1][..i] == modules[..i];
        if modules[i].name == name {
          found := Some(modules[i]);
        }
        i := i + 1;
      }
      assert modules[..i] == modules;
    }

    /**
     * `_getOrInitWasmModule`: a cached module is reused. Otherwise the
     * binary is fetched from `path/name.wasm`: a failed request rejects
     * with its `Error`, an answer that is not "ok" with the string
     * "module not found: " and that URL, a failed compile with its `Error`;
     * a compiled module is added to the cache and returned. What the fetch
     * and the compile give is the parameter `f`.
     */
    method GetOrInitWasmModule(name: WebTerm.Name, f: Fetch) returns (r: Resolution)
      modifies this
      ensures var cached := WebTerm.LastMatch(old(modules), name);
        (cached.Some? ==> r == Ready(cached.value, false) && modules == old(modules)) &&
        (cached.None? && f.networkError.Some? ==>
          r == Unavailable(f.networkError.value, false) && modules == old(modules)) &&
        (cached.None? && f.networkError.None? && !f.ok ==>
          r == Unavailable(NOT_FOUND + WebTerm.ModuleUrl(binaryPath, name), true) && modules == old(modules)) &&
        (cached.None? && f.networkError.None? && f.ok && f.compileError.Some? ==>
          r == Unavailable(f.compileError.value, false) && modules == old(modules)) &&
        (cached.None? && f.networkError.None? && f.ok && f.compileError.None? ==>
          r == Ready(WebTerm.ModuleEntry(name, WebTerm.Emscripten, f.compiled), true) && modules == old(modules) + [r.entry])
      ensures r == Resolve(binaryPath, old(modules), name, f)
      ensures modules == old(modules) + (if r.Ready? && r.compiledNow then [r.entry] else [])
      ensures r.Ready? ==> WebTerm.LastMatch(modules, name) == Some(r.entry)
      ensures GuardState() == old(GuardState()) && suppressOutputs == old(suppressOutputs)
      ensures commands == old(commands) && wasmFsFiles == old(wasmFsFiles)
      ensures written == old(written) && outputBuffer == old(outputBuffer)
    {
      var cached := FindModule(name);
      if cached.Some? {
        return Ready(cached.value, false);
      }
      if f.networkError.Some? {
        return Unavailable(f.networkError.value, false);
      }
      if !f.ok {
        return Unavailable(NOT_FOUND + WebTerm.ModuleUrl(binaryPath, name), true);
      }
      if f.compileError.Some? {
        return Unavailable(f.compileError.value, false);
      }
      var entry := WebTerm.ModuleEntry(name, WebTerm.Emscripten, f.compiled);
      WebTerm.CachedModuleFound(modules, entry, name);
      modules := modules + [entry];
      r := Ready(entry, true);
    }

    /**
     * A WebAssembly stage run to its end: the flag is taken (a set flag
     * throws, and the line logs it), the module resolved against the
     * cache, and the run's promise settles.
     */
    method RunWasmStage(name: WebTerm.Name, argv: seq<JsString>, preset: Option<JsString>, f: Fetch, out: WebTerm.RunOutput,
                        last: bool)
      returns (st: Step)
      requires Valid()
      modifies this
      ensures Valid()
      ensures st == WasmStep(name, argv, preset, StageEnd(binaryPath, old(modules), name, f, out), last, old(isRunningCommand))
      ensures written == old(written) + Written(st.events)
      ensures outputBuffer == BufferAfter(old(outputBuffer), st.events)
      ensures wasmFsFiles == LastStored(old(wasmFsFiles), st.events)
      ensures modules == old(modules) + CachedEntries(st.events)
      ensures GuardState() == old(GuardState())
      ensures suppressOutputs == if Launched(st.events) then false else old(suppressOutputs)
      ensures commands == old(commands)
    {
      if isRunningCommand {
        var thrown;
        if last {
          thrown := RunCommand();
        } else {
          thrown := RunCommandHeadless();
        }
        st := Step([Logged(thrown.value)], preset, true);
        HeldEffect(wasmFsFiles, outputBuffer, name, argv, preset, StageEnd(binaryPath, old(modules), name, f, out), last);
      } else if !last {
        st := RunHeadlessStage(name, argv, preset, f, out);
      } else {
        st := RunInteractiveStage(name, argv, preset, f, out);
      }
    }

    /** A stage inside a pipe, guard free: a headless run whose stdout becomes the next preset. */
    method RunHeadlessStage(name: WebTerm.Name, argv: seq<JsString>, preset: Option<JsString>, f: Fetch, out: WebTerm.RunOutput)
      returns (st: Step)
      requires Valid() && !isRunningCommand
      modifies this
      ensures Valid()
      ensures st == WasmStep(name, argv, preset, StageEnd(binaryPath, old(modules), name, f, out), false, false)
      ensures written == old(written) + Written(st.events) && !Launched(st.events)
      ensures outputBuffer == BufferAfter(old(outputBuffer), st.events)
      ensures wasmFsFiles == old(wasmFsFiles) && wasmFsFiles == LastStored(old(wasmFsFiles), st.events)
      ensures modules == old(modules) + CachedEntries(st.events)
      ensures GuardState() == old(GuardState()) && suppressOutputs == old(suppressOutputs)
      ensures commands == old(commands)
    {
      ghost var cache := modules;
      ghost var end := StageEnd(binaryPath, modules, name, f, out);
      HeadlessEffect(wasmFsFiles, outputBuffer, name, argv, preset, end);
      var thrown := RunCommandHeadless();
      var r := GetOrInitWasmModule(name, f);
      ResolvedEnd(binaryPath, cache, name, f, out);
      assert modules == cache + (if end.Finished? && end.compiledNow then [end.entry] else []);
      st := SettleHeadless(name, argv, preset, r, out, end);
    }

    /** A headless run whose module resolved as `r` settles: it finishes on a resolved module, else the failure is logged. */
    method SettleHeadless(name: WebTerm.Name, argv: seq<JsString>, preset: Option<JsString>, r: Resolution, out: WebTerm.RunOutput,
                          ghost end: WasmEnd)
      returns (st: Step)
      requires pending == WebTerm.Pending.HeadlessRun
      requires end == if r.Ready? then Finished(r.entry, r.compiledNow, out.stdout, out.files) else LoadFailed(r.reason, r.isText)
      modifies this
      ensures st == WasmStep(name, argv, preset, end, false, false)
      ensures written == old(written) + Written(st.events)
      ensures outputBuffer == BufferAfter(old(outputBuffer), st.events)
      ensures Valid() && GuardState() == Release(old(GuardState())) && suppressOutputs == old(suppressOutputs)
      ensures commands == old(commands) && wasmFsFiles == old(wasmFsFiles) && modules == old(modules)
    {
      HeadlessEffect(wasmFsFiles, outputBuffer, name, argv, preset, end);
      match r {
        case Ready(entry, compiledNow) =>
          var output := FinishHeadless(out.stdout);
          st := Step([Headless(name, argv, preset), ModuleReady(entry, compiledNow), Wrote(WebTerm.CLEAR_LINE), Cleared],
                     Some(output), false);
        case Unavailable(reason, _) =>
          var s := OnModuleFailure(reason, true);
          st := Step([Headless(name, argv, preset), Logged(s.reason)], preset, true);
      }
    }

    /** A headless run's module is ready and the run finishes: the line and the buffer are cleared, the flag too, the stdout returned. */
    method FinishHeadless(stdout: JsString) returns (output: JsString)
      requires pending == WebTerm.Pending.HeadlessRun
      modifies this
      ensures output == stdout
      ensures written == old(written) + WebTerm.CLEAR_LINE && outputBuffer == []
      ensures Valid() && GuardState() == Release(old(GuardState())) && suppressOutputs == old(suppressOutputs)
      ensures commands == old(commands) && wasmFsFiles == old(wasmFsFiles) && modules == old(modules)
    {
      OnModuleReady();
      var s := OnHeadlessFinish(HeadlessResult(stdout, stdout, []));
      output := s.stdout;
    }

    /**
     * The last stage, guard free: an interactive run, announced, whose
     * files are stored when it finishes. A failed load prints its reason,
     * as evidently intended (see `OnModuleFailureAsWritten`).
     */
    method RunInteractiveStage(name: WebTerm.Name, argv: seq<JsString>, preset: Option<JsString>, f: Fetch, out: WebTerm.RunOutput)
      returns (st: Step)
      requires Valid() && !isRunningCommand
      modifies this
      ensures Valid()
      ensures st == WasmStep(name, argv, preset, StageEnd(binaryPath, old(modules), name, f, out), true, false)
      ensures written == old(written) + Written(st.events)
      ensures outputBuffer == BufferAfter(old(outputBuffer), st.events)
      ensures wasmFsFiles == LastStored(old(wasmFsFiles), st.events)
      ensures modules == old(modules) + CachedEntries(st.events)
      ensures GuardState() == old(GuardState())
      ensures Launched(st.events) && !suppressOutputs
      ensures commands == old(commands)
    {
      ghost var end := StageEnd(binaryPath, modules, name, f, out);
      InteractiveEffect(wasmFsFiles, outputBuffer, name, argv, preset, end);
      var thrown := RunCommand();
      var r := GetOrInitWasmModule(name, f);
      var start := [Interactive(name, argv, preset), Printed(WebTerm.LOADING)];
      match r {
        case Ready(entry, compiledNow) =>
          assert end == Finished(entry, compiledNow, out.stdout, out.files);
          FinishRun(out.files);
          ConcatAssoc(old(written), WebTerm.LOADING, WebTerm.CLEAR_LINE);
          st := Step(start + [ModuleReady(entry, compiledNow), Wrote(WebTerm.CLEAR_LINE), Cleared, Stored(out.files)], None, false);
        case Unavailable(reason, isText) =>
          assert end == LoadFailed(reason, isText);
          FailRun(reason);
          ConcatAssoc(old(written), WebTerm.LOADING, ExpandNewlines(reason));
          st := Step(start + [Printed(ExpandNewlines(reason))], None, false);
      }
    }

    /** An interactive run's module is ready and the run finishes: the line is cleared and the files kept. */
    method FinishRun(files: seq<File>)
      modifies this
      ensures written == old(written) + WebTerm.CLEAR_LINE && outputBuffer == [] && wasmFsFiles == files
      ensures Valid() && GuardState() == Release(old(GuardState())) && suppressOutputs == old(suppressOutputs)
      ensures commands == old(commands) && modules == old(modules)
    {
      OnModuleReady();
      var s := OnFinish(files);
    }

    /** An interactive run's module failed to load while outputs are enabled: the reason is printed. */
    method FailRun(reason: JsString)
      requires !suppressOutputs
      modifies this
      ensures written == old(written) + ExpandNewlines(reason) && outputBuffer == old(outputBuffer) + ExpandNewlines(reason)
      ensures Valid() && GuardState() == Release(old(GuardState())) && !suppressOutputs
      ensures commands == old(commands) && wasmFsFiles == old(wasmFsFiles) && modules == old(modules)
    {
      var s := OnModuleFailure(reason, false);
    }

    /**
     * `runLine`: the output buffer is reset, then the stages between `|`
     * run in order, each given the preset the previous one left (none for
     * the first) and the module cache as the earlier stages left it; an
     * error is logged and ends the line. The stages are run by
     * `RunStages`, and what they wrote and printed, the files an
     * interactive run left, the modules compiled on the way and the lifted
     * suppression are then applied to the terminal.
     */
    method RunLine(line: JsString, fetch: WebTerm.Name -> Fetch,
                   run: (WebTerm.Name, seq<JsString>, Option<JsString>, bool) -> WebTerm.RunOutput)
      returns (events: seq<LineEvent>)
      requires Valid()
      modifies this
      ensures Valid()
      ensures events == LineFrom(old(commands), Backend(binaryPath, fetch, run), Split(line, PIPE), 0, None,
                                 old(modules), old(isRunningCommand), old(suppressOutputs))
      ensures written == old(written) + Written(events)
      ensures outputBuffer == BufferAfter([], events)
      ensures wasmFsFiles == LastStored(old(wasmFsFiles), events)
      ensures modules == old(modules) + CachedEntries(events)
      ensures suppressOutputs == if Launched(events) then false else old(suppressOutputs)
      ensures GuardState() == old(GuardState())
      ensures commands == old(commands)
    {
      events := RunStages(commands, Backend(binaryPath, fetch, run), Split(line, PIPE), modules, isRunningCommand, suppressOutputs);
      ApplyLine(events);
    }

    /**
     * What a line's events leave on the terminal: their text, the buffer
     * since the line began, the last files, the modules compiled.
     */
    method ApplyLine(events: seq<LineEvent>)
      modifies this
      ensures written == old(written) + Written(events)
      ensures outputBuffer == BufferAfter([], events)
      ensures wasmFsFiles == LastStored(old(wasmFsFiles), events)
      ensures modules == old(modules) + CachedEntries(events)
      ensures suppressOutputs == if Launched(events) then false else old(suppressOutputs)
      ensures GuardState() == old(GuardState())
      ensures commands == old(commands)
    {
      written := written + Written(events);
      outputBuffer := BufferAfter([], events);
      wasmFsFiles := LastStored(wasmFsFiles, events);
      modules := modules + CachedEntries(events);
      if Launched(events) {
        suppressOutputs := false;
      }
    }
  }

  /**
   * One stage of a line: parse it, then run a registered callback (draining
   * a generator with `DrainGenerator`) or a WebAssembly program against the
   * cache. What the stage yields is how the line from stage `k` on begins.
   */
  method RunStage(commands: map<JsString, Command>, backend: Backend,
                  stages: seq<JsString>, k: nat, preset: Option<JsString>, modules: seq<WebTerm.ModuleEntry>,
                  held: bool, suppress: bool)
    returns (st: Step)
    requires k < |stages|
    ensures st == StageStep(commands, backend, stages[k], k == |stages| - 1, preset, modules, held, suppress)
    ensures LineFrom(commands, backend, stages, k, preset, modules, held, suppress)
      == if st.stop then st.events
         else st.events + LineFrom(commands, backend, stages, k + 1, st.next, modules + CachedEntries(st.events), held, suppress)
  {
    var last := k == |stages| - 1;
    var (name, argv) := WebTerm.Parse(stages[k]);
    if name.Some? && name.value in commands {
      match commands[name.value] {
        case Callable(respond) =>
          var result := respond(argv);
          if result.Generator? {
            var output, prints := DrainGenerator(result.values, suppress);
            st := Step([Called(name.value, argv)] + prints, Some(output), false);
          } else {
            st := CallbackStep(name.value, argv, preset, result, suppress);
          }
        case NotCallable =>
          st := Step([NoFunction(name.value)], preset, false);
      }
    } else {
      var end := StageEnd(backend.binaryPath, modules, name, backend.fetch(name), backend.run(name, argv, preset, !last));
      st := WasmStep(name, argv, preset, end, last, held);
    }
    assert st == StageStep(commands, backend, stages[k], last, preset, modules, held, suppress);
  }

  /** The loop of `runLine` over the stages, collecting their events and the modules they cache. */
  method RunStages(commands: map<JsString, Command>, backend: Backend,
                   stages: seq<JsString>, modules: seq<WebTerm.ModuleEntry>, held: bool, suppress: bool)
    returns (events: seq<LineEvent>)
    ensures events == LineFrom(commands, backend, stages, 0, None, modules, held, suppress)
  {
    ghost var all := LineFrom(commands, backend, stages, 0, None, modules, held, suppress);
    events := [];
    var preset: Option<JsString> := None;
    var cache := modules;
    var i := 0;
    var done := false;
    while i < |stages| && !done
      invariant 0 <= i <= |stages|
      invariant cache == modules + CachedEntries(events)
      invariant done ==> events == all
      invariant !done ==> events + LineFrom(commands, backend, stages, i, preset, cache, held, suppress) == all
    {
      var st := RunStage(commands, backend, stages, i, preset, cache, held, suppress);
      AdvanceLine(commands, backend, stages, i, preset, cache, held, suppress, events, st, all);
      AdvanceCache(modules, cache, events, st.events);
      events := events + st.events;
      cache := cache + CachedEntries(st.events);
      preset := st.next;
      i := i + 1;
      done := st.stop;
    }
  }

  /** The loop's cache: the modules a stage caches follow those of the stages before it. */
  lemma AdvanceCache(modules: seq<WebTerm.ModuleEntry>, cache: seq<WebTerm.ModuleEntry>, events: seq<LineEvent>, more: seq<LineEvent>)
    requires cache == modules + CachedEntries(events)
    ensures cache + CachedEntries(more) == modules + CachedEntries(events + more)
  {
    CachedAppend(events, more);
  }

  /**
   * The loop's bookkeeping: stage `i`'s events move from the rest of the
   * line to what was run, and (unless the stage stopped) the rest of the
   * line starts at stage `i + 1` with its output and the cache it left.
   */
  lemma AdvanceLine(commands: map<JsString, Command>, backend: Backend, stages: seq<JsString>, i: nat,
                    preset: Option<JsString>, cache: seq<WebTerm.ModuleEntry>, held: bool, suppress: bool,
                    events: seq<LineEvent>, st: Step, all: seq<LineEvent>)
    requires i < |stages|
    requires events + LineFrom(commands, backend, stages, i, preset, cache, held, suppress) == all
    requires st == StageStep(commands, backend, stages[i], i == |stages| - 1, preset, cache, held, suppress)
    ensures st.stop ==> events + st.events == all
    ensures !st.stop ==>
      events + st.events + LineFrom(commands, backend, stages, i + 1, st.next, cache + CachedEntries(st.events), held, suppress) == all
  {
    if !st.stop {
      var after := LineFrom(commands, backend, stages, i + 1, st.next, cache + CachedEntries(st.events), held, suppress);
      assert LineFrom(commands, backend, stages, i, preset, cache, held, suppress) == st.events + after;
      assert events + st.events + after == events + (st.events + after);
    }
  }

}
