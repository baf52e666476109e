/**
 * The current terminal controller (`WasmWebTerm`): it splits an input line
 * into pipe stages, runs each stage as a registered JavaScript command or as
 * a WebAssembly program, threads every stage's output into the next stage's
 * stdin preset, and keeps the "already running" guard that lets only one
 * program run at a time. The programs themselves, the fetch and compile of
 * their binaries and the xterm surface are parameters: a `Backend` says
 * what fetching a binary gives and what a run prints, the module cache
 * decides whether a fetch happens at all, and what reaches the screen is
 * the `written` field.
 */
module WebTerm {
  import opened JsText
  import opened Runnables
  import opened LineBuffering
  import opened SharedMemory
  import WasmRunning

  /** A command name: `undefined` when a stage has no tokens. */
  type Name = Option<JsString>

  /** What a registered command's callback returns. */
  datatype CallbackResult =
    | Thenable(truthy: bool, text: JsString)   // a promise fulfilled with a value (its truthiness, its `toString()`)
    | Rejects(reason: JsString)                // a promise that rejects
    | Generator(values: seq<JsString>)         // a generator yielding strings
    | Plain(text: JsString)                    // any other value, by its `toString()`
    | NoValue                                  // `undefined`: reading `.then` on it throws

  /** A registered command: a callback, or an entry whose callback is not a function. */
  datatype Registered = Callable(respond: (seq<JsString>, Option<JsString>) -> CallbackResult) | NotCallable

  /** What a finished run hands back: its stdout and the files it left. */
  datatype RunOutput = RunOutput(stdout: JsString, files: seq<File>)

  /**
   * How a WebAssembly stage ends: its module resolved (`compiledNow` when
   * it was fetched and compiled for this stage) and the program ran, or
   * module resolution failed.
   */
  datatype WasmEnd =
    | Finished(entry: ModuleEntry, compiledNow: bool, stdout: JsString, files: seq<File>)
    | LoadFailed(reason: JsString)

  /** What one line does, in order. */
  datatype LineEvent =
    | Called(name: JsString, argv: seq<JsString>, preset: Option<JsString>)
    | Headless(program: Name, argv: seq<JsString>, preset: Option<JsString>)
    | Interactive(program: Name, argv: seq<JsString>, preset: Option<JsString>)
    | NoFunction(name: JsString)
    | ModuleReady(entry: ModuleEntry, compiledNow: bool)   // the module is resolved; a fresh one joins the cache
    | Wrote(text: JsString)
    | Stored(files: seq<File>)

  /** A stage's events, the preset for the next stage, and whether the line stops here. */
  datatype Step = Step(events: seq<LineEvent>, next: Option<JsString>, stop: bool)

  /** A callback's output after normalisation, or the text of what it threw. */
  datatype Produced = Produced(output: Option<JsString>) | Threw(text: JsString)

  /** Which run the guard currently protects. */
  datatype Pending = Idle | InteractiveRun | HeadlessRun

  /** What happened to the promise a run returned. */
  datatype Settlement = Unsettled | Resolved | ResolvedWith(stdout: JsString) | Rejected(reason: JsString)

  /** The two module kinds the loader tells apart. */
  datatype ModuleType = Emscripten | Wasmer

  /** A compiled module in the cache. */
  datatype ModuleEntry = ModuleEntry(name: Name, kind: ModuleType, compiled: nat)

  /** What module resolution delivers: a module (compiled just now or cached), or the rejection's reason. */
  datatype Resolution = Ready(entry: ModuleEntry, compiledNow: bool) | Unavailable(reason: JsString)

  /**
   * What fetching a program's binary afresh gives: whether the server had
   * it (else the package registry is asked, and may fail with a text),
   * whether compiling failed, and the compiled module's identity.
   */
  datatype Fetch = Fetch(foundOnServer: bool, registryError: Option<JsString>, compileError: Option<JsString>, compiled: nat)

  /**
   * The world beyond the terminal: what a fetch of a program's binary
   * gives, and what a run of the program prints and leaves (given its
   * argv, its preset and whether it runs headless).
   */
  datatype Backend = Backend(fetch: Name -> Fetch, run: (Name, seq<JsString>, Option<JsString>, bool) -> RunOutput)

  /*
   * The fixed texts, written out as their UTF-16 code units (each comment
   * gives the text).
   */

  /** "WasmWebTerm is already running a command" */
  const ALREADY_RUNNING: JsString :=
    [87, 97, 115, 109, 87, 101, 98, 84, 101, 114, 109, 32, 105, 115, 32, 97, 108, 114, 101, 97, 100, 121, 32, 114, 117, 110, 110, 105, 110, 103, 32, 97, 32, 99, 111, 109, 109, 97, 110, 100]
  /** "loading web assembly ..." */
  const LOADING: JsString := [108, 111, 97, 100, 105, 110, 103, 32, 119, 101, 98, 32, 97, 115, 115, 101, 109, 98, 108, 121, 32, 46, 46, 46]
  /** "Ctrl + C" */
  const CTRL_C: JsString := [67, 116, 114, 108, 32, 43, 32, 67]
  /** "\x1b[2K\r": erase the line and return to its start. */
  const CLEAR_LINE: JsString := [0x1b, 91, 50, 75, CR]
  /** "\r\x1B[K": return and erase to the end of the line. */
  const CLEAR_PROMPT: JsString := [CR, 0x1b, 91, 75]
  /** "TypeError: Cannot read properties of undefined (reading '", the start of V8's message. */
  const READ_OF_UNDEFINED: JsString :=
    [84, 121, 112, 101, 69, 114, 114, 111, 114, 58, 32, 67, 97, 110, 110, 111, 116, 32, 114, 101, 97, 100, 32, 112, 114, 111, 112, 101, 114, 116, 105, 101, 115, 32] +
    [111, 102, 32, 117, 110, 100, 101, 102, 105, 110, 101, 100, 32, 40, 114, 101, 97, 100, 105, 110, 103, 32, 39]
  /** "...(reading 'then')": what a callback returning `undefined` makes the line print. */
  const THEN_OF_UNDEFINED: JsString := READ_OF_UNDEFINED + [116, 104, 101, 110, 39, 41]
  /** "...(reading 'replace')": what writing `undefined` to the terminal makes the line print. */
  const REPLACE_OF_UNDEFINED: JsString := READ_OF_UNDEFINED + [114, 101, 112, 108, 97, 99, 101, 39, 41]

  /*
   * Parsing a stage.
   */

  /**
   * `split(/[\s]{1,}/g).filter(Boolean)` then `shift()`: the first token is
   * the command name, the rest is argv; nothing but whitespace is lost.
   */
  function Parse(stage: JsString): (r: (Name, seq<JsString>))
    ensures Flatten((if r.0.Some? then [r.0.value] else []) + r.1) == NonSpace(stage)
    ensures r.0.Some? ==> r.0.value != [] && forall j :: 0 <= j < |r.0.value| ==> !IsSpace(r.0.value[j])
    ensures r.0.None? ==> r.1 == []
  {
    var ts := Tokens(stage);
    TokensKeepNonSpace(stage);
    TokensAreWords(stage);
    if ts == [] then (None, [])
    else
      assert [ts[0]] + ts[1..] == ts;
      (Some(ts[0]), ts[1..])
  }

  /*
   * Callback outputs.
   */

  /** A generator's output: `undefined` if it yielded nothing, else its values concatenated. */
  function Yielded(values: seq<JsString>): (r: Option<JsString>)
  {
    if values == [] then None else Some(Flatten(values))
  }

  /** The `for await` loop over a generator, accumulating its values. */
  method CollectYields(values: seq<JsString>) returns (output: Option<JsString>)
    ensures output == Yielded(values)
    ensures output.Some? ==> |output.value| >= |values[0]| && output.value[..|values[0]|] == values[0]
  {
    output := None;
    var i := 0;
    while i < |values|
      invariant 0 <= i <= |values|
      invariant output == Yielded(values[..i])
    {
      ghost var next := values[..i + 1];
      assert next[..i] == values[..i] && next[i] == values[i];
      assert Flatten(next) == Flatten(values[..i]) + values[i];
      if output.None? {
        assert values[..i] == [];
        output := Some(values[i]);
      } else {
        output := Some(output.value + values[i]);
      }
      assert next != [];
      assert Yielded(next) == Some(Flatten(next));
      assert output.Some? && output.value == Flatten(next);
      i := i + 1;
    }
    assert values[..i] == values;
    if output.Some? {
      FlattenCons(values[0], values[1..]);
      assert [values[0]] + values[1..] == values;
    }
  }

  /**
   * The three ways a callback passes output: a promise's value (falsy
   * becomes ""), a generator's values, or the returned value itself. A
   * rejection, or `undefined` returned, ends the line with an error.
   */
  function CallbackOutput(result: CallbackResult): (r: Produced)
    ensures r.Threw? <==> result.Rejects? || result.NoValue?
    ensures r.Produced? && r.output.None? <==> result.Generator? && result.values == []
    ensures result.Thenable? && !result.truthy ==> r == Produced(Some([]))
  {
    match result
    case Thenable(truthy, text) => Produced(Some(if truthy then text else []))
    case Rejects(reason) => Threw(reason)
    case Generator(values) => Produced(Yielded(values))
    case Plain(text) => Produced(Some(text))
    case NoValue => Threw(THEN_OF_UNDEFINED)
  }

  /** `output || null`: an empty or missing output gives the next stage no preset. */
  function NextPreset(output: Option<JsString>): (r: Option<JsString>)
    ensures r.Some? ==> r.value != [] && r == output
    ensures output.Some? && output.value != [] ==> r == output
  {
    if output.None? || output.value == [] then None else output
  }

  /*
   * The line as a sequence of stages.
   */

  /**
   * A registered callback's stage once its output is known: inside a pipe
   * the output becomes the next preset; on the last stage it is printed
   * (unless outputs are suppressed), and printing `undefined` throws.
   */
  function OutputStep(name: JsString, argv: seq<JsString>, preset: Option<JsString>,
                      produced: Produced, last: bool, suppress: bool): Step
  {
    var called := [Called(name, argv, preset)];
    match produced
    case Threw(text) => Step(called + [Wrote(text + WasmRunning.CRLF())], preset, true)
    case Produced(output) =>
      if !last then Step(called, NextPreset(output), false)
      else if suppress then Step(called, preset, false)
      else if output.None? then Step(called + [Wrote(REPLACE_OF_UNDEFINED + WasmRunning.CRLF())], preset, true)
      else Step(called + [Wrote(ExpandNewlines(output.value))], preset, false)
  }

  /**
   * A WebAssembly stage: headless inside a pipe (its stdout becomes the next
   * preset), interactive at the end (announced, and its files stored). A
   * held guard or a failed load ends the line with the error printed.
   */
  function WasmStep(name: Name, argv: seq<JsString>, preset: Option<JsString>,
                    end: WasmEnd, last: bool, held: bool): Step
  {
    if held then Step([Wrote(ALREADY_RUNNING + WasmRunning.CRLF())], preset, true)
    else if !last then
      match end
      case Finished(entry, compiledNow, stdout, _) =>
        Step([Headless(name, argv, preset), ModuleReady(entry, compiledNow), Wrote(CLEAR_LINE)], Some(stdout), false)
      case LoadFailed(reason) => Step([Headless(name, argv, preset), Wrote(reason + WasmRunning.CRLF())], preset, true)
    else
      var start := [Interactive(name, argv, preset), Wrote(LOADING)];
      match end
      case Finished(entry, compiledNow, _, files) =>
        Step(start + [ModuleReady(entry, compiledNow), Wrote(CLEAR_LINE), Stored(files)], None, false)
      case LoadFailed(reason) =>
        Step(start + [Wrote(WasmRunning.CRLF() + reason + WasmRunning.CRLF())], preset, true)
  }

  /**
   * `_getOrInitWasmModule` against the cache `modules`: the last cached
   * entry with the name is reused; otherwise the fetch decides, and a
   * module fetched and compiled is new.
   */
  function Resolve(modules: seq<ModuleEntry>, name: Name, f: Fetch): (r: Resolution)
    ensures r.Ready? ==> r.entry.name == name
    ensures LastMatch(modules, name).Some? ==> r == Ready(LastMatch(modules, name).value, false)
    ensures r.Ready? && r.compiledNow <==> LastMatch(modules, name).None? && r.Ready?
    ensures r.Unavailable? && !f.foundOnServer && f.registryError.Some? ==>
      LastMatch(modules, name).None? && r.reason == f.registryError.value
    ensures r.Unavailable? && (f.foundOnServer || f.registryError.None?) ==>
      LastMatch(modules, name).None? && f.compileError.Some? && r.reason == f.compileError.value
  {
    var cached := LastMatch(modules, name);
    if cached.Some? then Ready(cached.value, false)
    else if !f.foundOnServer && f.registryError.Some? then Unavailable(f.registryError.value)
    else if f.compileError.Some? then Unavailable(f.compileError.value)
    else Ready(ModuleEntry(name, if f.foundOnServer then Emscripten else Wasmer, f.compiled), true)
  }

  /** How a WebAssembly stage ends against the cache: the program runs once its module resolves. */
  function StageEnd(modules: seq<ModuleEntry>, name: Name, f: Fetch, out: RunOutput): (end: WasmEnd)
    ensures end.Finished? <==> Resolve(modules, name, f).Ready?
    ensures end.Finished? ==> end.entry == Resolve(modules, name, f).entry && end.compiledNow == Resolve(modules, name, f).compiledNow
    ensures end.Finished? ==> end.stdout == out.stdout && end.files == out.files
    ensures end.LoadFailed? ==> end.reason == Resolve(modules, name, f).reason
  {
    match Resolve(modules, name, f)
    case Ready(entry, compiledNow) => Finished(entry, compiledNow, out.stdout, out.files)
    case Unavailable(reason) => LoadFailed(reason)
  }

  /** One stage: registered callbacks first, then WebAssembly for unknown names, resolved against `modules`. */
  function StageStep(commands: map<JsString, Registered>, backend: Backend,
                     stage: JsString, last: bool, preset: Option<JsString>, modules: seq<ModuleEntry>,
                     held: bool, suppress: bool): Step
  {
    var (name, argv) := Parse(stage);
    if name.Some? && name.value in commands then
      match commands[name.value]
      case Callable(respond) => OutputStep(name.value, argv, preset, CallbackOutput(respond(argv, preset)), last, suppress)
      case NotCallable => Step([NoFunction(name.value)], preset, false)
    else WasmStep(name, argv, preset, StageEnd(modules, name, backend.fetch(name), backend.run(name, argv, preset, !last)), last, held)
  }

  /** The events of stages `k..`, given the preset stage `k` receives and the cache as it then is. */
  function LineFrom(commands: map<JsString, Registered>, backend: Backend,
                    stages: seq<JsString>, k: nat, preset: Option<JsString>, modules: seq<ModuleEntry>,
                    held: bool, suppress: bool): seq<LineEvent>
    decreases |stages| - k, 1
  {
    if k >= |stages| then [] else StageAndRest(commands, backend, stages, k, preset, modules, held, suppress)
  }

  /** Stage `k`'s events, followed by the rest of the line (given the modules it cached) unless the stage stopped it. */
  function StageAndRest(commands: map<JsString, Registered>, backend: Backend,
                        stages: seq<JsString>, k: nat, preset: Option<JsString>, modules: seq<ModuleEntry>,
                        held: bool, suppress: bool): seq<LineEvent>
    requires k < |stages|
    decreases |stages| - k, 0
  {
    var st := StageStep(commands, backend, stages[k], k == |stages| - 1, preset, modules, held, suppress);
    if st.stop then st.events
    else st.events + LineFrom(commands, backend, stages, k + 1, st.next, modules + CachedEntries(st.events), held, suppress)
  }

  /** Everything written to the terminal by a sequence of events. */
  function WrittenText(events: seq<LineEvent>): JsString
  {
    if events == [] then []
    else WrittenText(events[..|events| - 1]) + (if events[|events| - 1].Wrote? then events[|events| - 1].text else [])
  }

  lemma {:induction false} WrittenAppend(a: seq<LineEvent>, b: seq<LineEvent>)
    ensures WrittenText(a + b) == WrittenText(a) + WrittenText(b)
    decreases |b|
  {
    if b == [] {
      assert a + b == a;
    } else {
      assert (a + b)[..|a + b| - 1] == a + b[..|b| - 1];
      WrittenAppend(a, b[..|b| - 1]);
    }
  }

  /** Appending a write adds its text and changes neither the stored files, the cached modules nor whether a run was launched. */
  lemma AppendWrote(files: seq<File>, before: seq<LineEvent>, text: JsString)
    ensures WrittenText(before + [Wrote(text)]) == WrittenText(before) + text
    ensures LastStored(files, before + [Wrote(text)]) == LastStored(files, before)
    ensures CachedEntries(before + [Wrote(text)]) == CachedEntries(before)
    ensures Launched(before + [Wrote(text)]) <==> Launched(before)
  {
    assert (before + [Wrote(text)])[..|before|] == before;
  }

  /** Appending stored files writes nothing, caches nothing and makes them the files stored last. */
  lemma AppendStored(files: seq<File>, before: seq<LineEvent>, stored: seq<File>)
    ensures WrittenText(before + [Stored(stored)]) == WrittenText(before)
    ensures LastStored(files, before + [Stored(stored)]) == stored
    ensures CachedEntries(before + [Stored(stored)]) == CachedEntries(before)
  {
    assert (before + [Stored(stored)])[..|before|] == before;
  }

  /** Appending a resolved module writes and stores nothing; a module compiled just now joins the cache. */
  lemma AppendReady(files: seq<File>, before: seq<LineEvent>, entry: ModuleEntry, compiledNow: bool)
    ensures WrittenText(before + [ModuleReady(entry, compiledNow)]) == WrittenText(before)
    ensures LastStored(files, before + [ModuleReady(entry, compiledNow)]) == LastStored(files, before)
    ensures CachedEntries(before + [ModuleReady(entry, compiledNow)]) == CachedEntries(before) + (if compiledNow then [entry] else [])
    ensures Launched(before + [ModuleReady(entry, compiledNow)]) <==> Launched(before)
  {
    assert (before + [ModuleReady(entry, compiledNow)])[..|before|] == before;
  }

  /** The modules a sequence of events adds to the cache, in order. */
  function CachedEntries(events: seq<LineEvent>): seq<ModuleEntry>
  {
    if events == [] then []
    else
      var e := events[|events| - 1];
      CachedEntries(events[..|events| - 1]) + (if e.ModuleReady? && e.compiledNow then [e.entry] else [])
  }

  lemma {:induction false} CachedAppend(a: seq<LineEvent>, b: seq<LineEvent>)
    ensures CachedEntries(a + b) == CachedEntries(a) + CachedEntries(b)
    decreases |b|
  {
    if b == [] {
      assert a + b == a;
    } else {
      assert (a + b)[..|a + b| - 1] == a + b[..|b| - 1];
      CachedAppend(a, b[..|b| - 1]);
    }
  }

  /** The files stored last, or `files` if the events store none. */
  function LastStored(files: seq<File>, events: seq<LineEvent>): seq<File>
  {
    if events == [] then files
    else if events[|events| - 1].Stored? then events[|events| - 1].files
    else LastStored(files, events[..|events| - 1])
  }

  lemma {:induction false} LastStoredAppend(files: seq<File>, a: seq<LineEvent>, b: seq<LineEvent>)
    ensures LastStored(files, a + b) == LastStored(LastStored(files, a), b)
    decreases |b|
  {
    if b == [] {
      assert a + b == a;
    } else {
      assert (a + b)[..|a + b| - 1] == a + b[..|b| - 1];
      LastStoredAppend(files, a, b[..|b| - 1]);
    }
  }

  /** Events that store nothing leave the stored files as they were. */
  lemma {:induction false} LastStoredNone(files: seq<File>, events: seq<LineEvent>)
    requires forall e :: e in events ==> !e.Stored?
    ensures LastStored(files, events) == files
    decreases |events|
  {
    if events != [] {
      assert events[|events| - 1] in events;
      assert forall e :: e in events[..|events| - 1] ==> e in events;
      LastStoredNone(files, events[..|events| - 1]);
    }
  }

  /**
   * The last stage with the guard free, in closed form: the loading notice
   * is written; then a finished run clears the line and stores its files,
   * while a failed load writes its reason between line breaks.
   */
  lemma InteractiveEffect(files: seq<File>, name: Name, argv: seq<JsString>, preset: Option<JsString>, end: WasmEnd)
    ensures var st := WasmStep(name, argv, preset, end, true, false);
      WrittenText(st.events) == LOADING + (if end.Finished? then CLEAR_LINE else WasmRunning.CRLF() + end.reason + WasmRunning.CRLF()) &&
      LastStored(files, st.events) == (if end.Finished? then end.files else files) && Launched(st.events) &&
      CachedEntries(st.events) == (if end.Finished? && end.compiledNow then [end.entry] else [])
  {
    var start := Interactive(name, argv, preset);
    if end.Finished? {
      FinishedEffect(files, start, LOADING, end.entry, end.compiledNow, CLEAR_LINE, end.files);
    } else {
      FailedEffect(files, start, LOADING, WasmRunning.CRLF() + end.reason + WasmRunning.CRLF());
    }
  }

  /** The start of a line's events: nothing written, stored or cached. */
  lemma StartEffect(files: seq<File>, start: LineEvent)
    requires start.Interactive? || start.Headless?
    ensures WrittenText([start]) == [] && LastStored(files, [start]) == files && CachedEntries([start]) == []
  {
    assert [start][..0] == [];
  }

  /**
   * An interactive run that finished: after its notice the module is
   * resolved (and cached if compiled just now), the line is cleared and
   * the run's files stored.
   */
  lemma FinishedEffect(files: seq<File>, start: LineEvent, notice: JsString, entry: ModuleEntry, compiledNow: bool,
                       clear: JsString, stored: seq<File>)
    requires start.Interactive?
    ensures var events := [start, Wrote(notice)] + [ModuleReady(entry, compiledNow), Wrote(clear), Stored(stored)];
      WrittenText(events) == notice + clear && LastStored(files, events) == stored && Launched(events) &&
      CachedEntries(events) == (if compiledNow then [entry] else [])
  {
    var e1 := [start];
    var e2 := e1 + [Wrote(notice)];
    var e3 := e2 + [ModuleReady(entry, compiledNow)];
    var e4 := e3 + [Wrote(clear)];
    var events := e4 + [Stored(stored)];
    assert events == [start, Wrote(notice)] + [ModuleReady(entry, compiledNow), Wrote(clear), Stored(stored)];
    assert events[0] in events;
    StartEffect(files, start);
    AppendWrote(files, e1, notice);
    AppendReady(files, e2, entry, compiledNow);
    AppendWrote(files, e3, clear);
    AppendStored(files, e4, stored);
  }

  /** An interactive run whose module failed to load: the failure is written after the notice and nothing is cached. */
  lemma FailedEffect(files: seq<File>, start: LineEvent, notice: JsString, text: JsString)
    requires start.Interactive?
    ensures var events := [start, Wrote(notice)] + [Wrote(text)];
      WrittenText(events) == notice + text && LastStored(files, events) == files && Launched(events) &&
      CachedEntries(events) == []
  {
    var e1 := [start];
    var e2 := e1 + [Wrote(notice)];
    StartEffect(files, start);
    AppendWrote(files, e1, notice);
    AppendWrote(files, e2, text);
    var events := e2 + [Wrote(text)];
    assert events == [start, Wrote(notice)] + [Wrote(text)];
    assert events[0] in events;
  }

  /**
   * A headless stage with the guard free: a finished run clears the line
   * and caches its module if compiled just now; a failed load writes the
   * reason. Neither stores files nor starts an interactive run.
   */
  lemma HeadlessEffect(files: seq<File>, name: Name, argv: seq<JsString>, preset: Option<JsString>, end: WasmEnd)
    ensures var st := WasmStep(name, argv, preset, end, false, false);
      WrittenText(st.events) == (if end.Finished? then CLEAR_LINE else end.reason + WasmRunning.CRLF()) &&
      LastStored(files, st.events) == files && !Launched(st.events) &&
      CachedEntries(st.events) == (if end.Finished? && end.compiledNow then [end.entry] else [])
  {
    var start := Headless(name, argv, preset);
    StartEffect(files, start);
    var st := WasmStep(name, argv, preset, end, false, false);
    if end.Finished? {
      AppendReady(files, [start], end.entry, end.compiledNow);
      AppendWrote(files, [start, ModuleReady(end.entry, end.compiledNow)], CLEAR_LINE);
      assert [start, ModuleReady(end.entry, end.compiledNow)] + [Wrote(CLEAR_LINE)] == st.events;
    } else {
      AppendWrote(files, [start], end.reason + WasmRunning.CRLF());
      assert [start] + [Wrote(end.reason + WasmRunning.CRLF())] == st.events;
    }
    assert forall e :: e in st.events ==> !e.Interactive?;
  }

  /** A stage refused by a held guard writes the error and nothing else. */
  lemma HeldEffect(files: seq<File>, name: Name, argv: seq<JsString>, preset: Option<JsString>, end: WasmEnd, last: bool)
    ensures var st := WasmStep(name, argv, preset, end, last, true);
      WrittenText(st.events) == ALREADY_RUNNING + WasmRunning.CRLF() &&
      LastStored(files, st.events) == files && !Launched(st.events) && CachedEntries(st.events) == []
  {
    AppendWrote(files, [], ALREADY_RUNNING + WasmRunning.CRLF());
    assert [] + [Wrote(ALREADY_RUNNING + WasmRunning.CRLF())] == [Wrote(ALREADY_RUNNING + WasmRunning.CRLF())];
  }

  /** Whether an interactive run was started (which lifts output suppression). */
  predicate Launched(events: seq<LineEvent>)
  {
    exists e :: e in events && e.Interactive?
  }

  /*
   * Properties of a line.
   */

  /** A line without `|` is one stage, run as the last stage with no preset. */
  lemma SingleStage(commands: map<JsString, Registered>, backend: Backend,
                    line: JsString, modules: seq<ModuleEntry>, held: bool, suppress: bool)
    requires PIPE !in line
    ensures Split(line, PIPE) == [line]
    ensures LineFrom(commands, backend, Split(line, PIPE), 0, None, modules, held, suppress)
         == StageStep(commands, backend, line, true, None, modules, held, suppress).events
  {
    var st := StageStep(commands, backend, line, true, None, modules, held, suppress);
    assert Split(line, PIPE) == [line];
    assert LineFrom(commands, backend, [line], 1, st.next, modules + CachedEntries(st.events), held, suppress) == [];
    assert st.events + [] == st.events;
  }

  /**
   * `a | b` with two WebAssembly programs and the guard free, `a`'s module
   * resolving: `a` runs headless with no preset, its line is cleared, and
   * `b` then runs as the last stage with `a`'s stdout as its preset and
   * the cache as `a` left it.
   */
  lemma PipeThreadsStdout(commands: map<JsString, Registered>, backend: Backend,
                          a: JsString, b: JsString, modules: seq<ModuleEntry>, suppress: bool)
    requires PIPE !in a && PIPE !in b
    requires Parse(a).0.None? || Parse(a).0.value !in commands
    requires Parse(b).0.None? || Parse(b).0.value !in commands
    requires Resolve(modules, Parse(a).0, backend.fetch(Parse(a).0)).Ready?
    ensures var ra := Resolve(modules, Parse(a).0, backend.fetch(Parse(a).0));
      var out := Some(backend.run(Parse(a).0, Parse(a).1, None, true).stdout);
      var cache := modules + (if ra.compiledNow then [ra.entry] else []);
      var (name, argv) := Parse(b);
      LineFrom(commands, backend, Split(a + [PIPE] + b, PIPE), 0, None, modules, false, suppress)
        == [Headless(Parse(a).0, Parse(a).1, None), ModuleReady(ra.entry, ra.compiledNow), Wrote(CLEAR_LINE)] +
           WasmStep(name, argv, out, StageEnd(cache, name, backend.fetch(name), backend.run(name, argv, out, false)), true, false).events
  {
    SplitAround(a, b, PIPE);
    TwoStages(commands, backend, a, b, None, modules, false, suppress);
    var ra := Resolve(modules, Parse(a).0, backend.fetch(Parse(a).0));
    var out := Some(backend.run(Parse(a).0, Parse(a).1, None, true).stdout);
    var first := StageStep(commands, backend, a, false, None, modules, false, suppress);
    var endA := StageEnd(modules, Parse(a).0, backend.fetch(Parse(a).0), backend.run(Parse(a).0, Parse(a).1, None, true));
    assert first == WasmStep(Parse(a).0, Parse(a).1, None, endA, false, false);
    assert first == Step([Headless(Parse(a).0, Parse(a).1, None), ModuleReady(ra.entry, ra.compiledNow), Wrote(CLEAR_LINE)], out, false);
    HeadlessEffect([], Parse(a).0, Parse(a).1, None, endA);
  }

  /**
   * `p x | p y`, one WebAssembly program twice with the guard free: the
   * first stage fetches and compiles `p` at most once, and the last stage
   * runs the very module it left in the cache without fetching again; the
   * line adds at most that one module to the cache.
   */
  lemma PipeReusesModule(commands: map<JsString, Registered>, backend: Backend,
                         a: JsString, b: JsString, modules: seq<ModuleEntry>, suppress: bool)
    requires PIPE !in a && PIPE !in b
    requires Parse(a).0 == Parse(b).0
    requires Parse(a).0.None? || Parse(a).0.value !in commands
    requires Resolve(modules, Parse(a).0, backend.fetch(Parse(a).0)).Ready?
    ensures var ra := Resolve(modules, Parse(a).0, backend.fetch(Parse(a).0));
      var events := LineFrom(commands, backend, Split(a + [PIPE] + b, PIPE), 0, None, modules, false, suppress);
      ModuleReady(ra.entry, false) in events &&
      CachedEntries(events) == (if ra.compiledNow then [ra.entry] else [])
  {
    var name := Parse(a).0;
    var f := backend.fetch(name);
    var ra := Resolve(modules, name, f);
    var out := Some(backend.run(name, Parse(a).1, None, true).stdout);
    var cache := modules + (if ra.compiledNow then [ra.entry] else []);
    PipeThreadsStdout(commands, backend, a, b, modules, suppress);
    ResolvesAgain(modules, name, f, f);
    var second := WasmStep(name, Parse(b).1, out, StageEnd(cache, name, f, backend.run(name, Parse(b).1, out, false)), true, false).events;
    ReusedStage(name, Parse(b).1, out, cache, f, backend.run(name, Parse(b).1, out, false), ra.entry);
    var first := [Headless(name, Parse(a).1, None), ModuleReady(ra.entry, ra.compiledNow), Wrote(CLEAR_LINE)];
    ReadyCaches(Headless(name, Parse(a).1, None), ra.entry, ra.compiledNow);
    CachedAppend(first, second);
  }

  /** The last stage running a module the cache already holds resolves it without caching anything. */
  lemma ReusedStage(name: Name, argv: seq<JsString>, preset: Option<JsString>, cache: seq<ModuleEntry>, f: Fetch,
                    out: RunOutput, entry: ModuleEntry)
    requires Resolve(cache, name, f) == Ready(entry, false)
    ensures var events := WasmStep(name, argv, preset, StageEnd(cache, name, f, out), true, false).events;
      ModuleReady(entry, false) in events && CachedEntries(events) == []
  {
    var end := StageEnd(cache, name, f, out);
    InteractiveEffect([], name, argv, preset, end);
    assert WasmStep(name, argv, preset, end, true, false).events[2] == ModuleReady(entry, false);
  }

  /** A stage start, a resolved module and a write cache the module exactly when it was compiled just now. */
  lemma ReadyCaches(start: LineEvent, entry: ModuleEntry, compiledNow: bool)
    requires start.Interactive? || start.Headless?
    ensures CachedEntries([start, ModuleReady(entry, compiledNow), Wrote(CLEAR_LINE)]) == (if compiledNow then [entry] else [])
  {
    StartEffect([], start);
    AppendReady([], [start], entry, compiledNow);
    AppendWrote([], [start, ModuleReady(entry, compiledNow)], CLEAR_LINE);
    assert [start] + [ModuleReady(entry, compiledNow)] == [start, ModuleReady(entry, compiledNow)];
    assert [start, ModuleReady(entry, compiledNow)] + [Wrote(CLEAR_LINE)] == [start, ModuleReady(entry, compiledNow), Wrote(CLEAR_LINE)];
  }

  /**
   * A module that resolved resolves again, to the same entry and from the
   * cache, once the module compiled for it (if any) is cached: what the
   * server would answer no longer matters.
   */
  lemma ResolvesAgain(modules: seq<ModuleEntry>, name: Name, f: Fetch, g: Fetch)
    requires Resolve(modules, name, f).Ready?
    ensures var ra := Resolve(modules, name, f);
      Resolve(modules + (if ra.compiledNow then [ra.entry] else []), name, g) == Ready(ra.entry, false)
  {
    var ra := Resolve(modules, name, f);
    if ra.compiledNow {
      assert ra.entry.name == name;
      CachedModuleFound(modules, ra.entry, name);
    } else {
      assert LastMatch(modules, name).Some?;
      assert modules + [] == modules;
    }
  }

  /** A line of two stages: the first one's events, then (unless it stopped) the last one's, fed its output and cache. */
  lemma TwoStages(commands: map<JsString, Registered>, backend: Backend,
                  a: JsString, b: JsString, preset: Option<JsString>, modules: seq<ModuleEntry>, held: bool, suppress: bool)
    ensures var first := StageStep(commands, backend, a, false, preset, modules, held, suppress);
      var second := StageStep(commands, backend, b, true, first.next, modules + CachedEntries(first.events), held, suppress);
      LineFrom(commands, backend, [a, b], 0, preset, modules, held, suppress) ==
        if first.stop then first.events else first.events + second.events
  {
    var stages := [a, b];
    var first := StageStep(commands, backend, a, false, preset, modules, held, suppress);
    var cache := modules + CachedEntries(first.events);
    var second := StageStep(commands, backend, b, true, first.next, cache, held, suppress);
    assert LineFrom(commands, backend, stages, 2, second.next, cache + CachedEntries(second.events), held, suppress) == [];
    assert second.events + [] == second.events;
    assert LineFrom(commands, backend, stages, 1, first.next, cache, held, suppress) == second.events;
  }

  /** While another run holds the guard, a line starts no WebAssembly run at all. */
  lemma {:induction false} HeldGuardStartsNothing(commands: map<JsString, Registered>, backend: Backend,
                                                 stages: seq<JsString>, k: nat, preset: Option<JsString>,
                                                 modules: seq<ModuleEntry>, suppress: bool)
    ensures forall e :: e in LineFrom(commands, backend, stages, k, preset, modules, true, suppress) ==> !e.Headless? && !e.Interactive?
    decreases |stages| - k
  {
    if k < |stages| {
      var st := StageStep(commands, backend, stages[k], k == |stages| - 1, preset, modules, true, suppress);
      if !st.stop {
        HeldGuardStartsNothing(commands, backend, stages, k + 1, st.next, modules + CachedEntries(st.events), suppress);
      }
    }
  }

  /** Only the last stage starts an interactive run. */
  lemma StageLaunches(commands: map<JsString, Registered>, backend: Backend,
                      stage: JsString, last: bool, preset: Option<JsString>, modules: seq<ModuleEntry>, held: bool, suppress: bool)
    ensures Launched(StageStep(commands, backend, stage, last, preset, modules, held, suppress).events) ==> last
  {
  }

  /** Text without a line feed is written as it is. */
  lemma {:induction false} ExpandWithoutLF(s: JsString)
    requires LF !in s
    ensures ExpandNewlines(s) == s
    decreases |s|
  {
    if s != [] {
      ExpandWithoutLF(s[1..]);
      assert s == [s[0]] + s[1..];
    }
  }

  /** The loading notice has no line feed, so `_stdout` writes it unchanged. */
  lemma LoadingUnchanged()
    ensures ExpandNewlines(LOADING) == LOADING
  {
    assert forall i :: 0 <= i < |LOADING| ==> LOADING[i] != LF;
    ExpandWithoutLF(LOADING);
  }

  /** The first index of the last match of `name` in the cache, by the loader's `forEach`. */
  function LastMatch(modules: seq<ModuleEntry>, name: Name): (r: Option<ModuleEntry>)
    ensures r.Some? ==> r.value in modules && r.value.name == name
    ensures r.None? <==> forall i :: 0 <= i < |modules| ==> modules[i].name != name
  {
    if modules == [] then None
    else if modules[|modules| - 1].name == name then Some(modules[|modules| - 1])
    else
      var r := LastMatch(modules[..|modules| - 1], name);
      assert forall i :: 0 <= i < |modules| - 1 ==> modules[..|modules| - 1][i] == modules[i];
      r
  }

  /** After a module is added it is what a lookup of its name finds; other names are unaffected. */
  lemma CachedModuleFound(modules: seq<ModuleEntry>, entry: ModuleEntry, other: Name)
    ensures LastMatch(modules + [entry], entry.name) == Some(entry)
    ensures other != entry.name ==> LastMatch(modules + [entry], other) == LastMatch(modules, other)
  {
    assert (modules + [entry])[..|modules|] == modules;
  }

  /** `binaryPath + "/" + name + ".wasm"`, with an absent name spelt "undefined". */
  function ModuleUrl(binaryPath: JsString, name: Name): (r: JsString)
    ensures |r| >= |binaryPath| + 6
    ensures r[..|binaryPath|] == binaryPath && r[|binaryPath|] == SLASH
    ensures r[|r| - 5..] == Lit(".wasm")
  {
    binaryPath + [SLASH] + (if name.Some? then name.value else Lit("undefined")) + Lit(".wasm")
  }

  /**
   * A line answered to a stdin request reaches the worker as its codes and
   * a line feed, when it fits the window and contains no NUL.
   */
  lemma AnswerReachesWorker(input: JsString)
    requires NUL !in input && |input| < STDIN_SLOTS
    ensures BeforeZero(Filled(input + [LF], STDIN_SLOTS)) == Codes(input) + [LF as int]
  {
    ReadAfterSet(input + [LF], STDIN_SLOTS);
    assert Codes(input + [LF])[..Min(|input| + 1, STDIN_SLOTS)] == Codes(input + [LF]);
  }

  /*
   * Ctrl+C.
   */

  /** The flag `isRunningCommand` is set exactly while a run's promise is open. */
  predicate Consistent(running: bool, p: Pending)
  {
    running <==> !p.Idle?
  }

  /**
   * Ctrl+C with a worker, as written: only the interactive run's promise is
   * rejected with "Ctrl + C". An open headless run's promise is never
   * settled, since its worker is gone.
   */
  function InterruptAsWritten(p: Pending): (r: (Pending, Settlement))
    ensures r.0 == p <==> !p.InteractiveRun?
    ensures r.1 != Unsettled <==> p.InteractiveRun?
    ensures r.1 != Unsettled ==> r.1 == Rejected(CTRL_C)
  {
    if p == InteractiveRun then (Idle, Rejected(CTRL_C)) else (p, Unsettled)
  }

  /** Ctrl+C as evidently intended: whichever run is open is over, its promise rejected with "Ctrl + C". */
  function Interrupt(p: Pending): (r: (Pending, Settlement))
    ensures r.0 == Idle
    ensures r.1 == Unsettled <==> p.Idle?
    ensures r.1 != Unsettled ==> r.1 == Rejected(CTRL_C)
  {
    (Idle, if p.Idle? then Unsettled else Rejected(CTRL_C))
  }

  /**
   * Ctrl+C during a headless pipe stage, as written: the flag is cleared
   * but the run stays open and unsettled, so the flag and the open run
   * disagree and `runLine` waits forever. As intended the run is rejected
   * and the cleared flag agrees with it; on every other run the two agree.
   */
  lemma HeadlessInterruptHangs()
    ensures InterruptAsWritten(HeadlessRun) == (HeadlessRun, Unsettled)
    ensures !Consistent(false, InterruptAsWritten(HeadlessRun).0)
    ensures Interrupt(HeadlessRun) == (Idle, Rejected(CTRL_C)) && Consistent(false, Interrupt(HeadlessRun).0)
    ensures forall p :: p != HeadlessRun ==> InterruptAsWritten(p) == Interrupt(p)
  {
  }

  class Terminal {
    /** Whether a background worker exists (the prompts fallback has none). */
    const hasWorker: bool
    var commands: map<JsString, Registered>
    var isRunningCommand: bool
    /** The run whose promise is still open, if any. */
    var pending: Pending
    var suppressOutputs: bool
    /** Everything written to the terminal surface. */
    var written: JsString
    var wasmFsFiles: seq<File>
    var modules: seq<ModuleEntry>

    /** The guard is held exactly while a run's promise is open. */
    ghost predicate Valid()
      reads this
    {
      Consistent(isRunningCommand, pending)
    }

    constructor (hasWorker: bool)
      ensures Valid() && this.hasWorker == hasWorker
      ensures commands == map[] && !isRunningCommand && pending == Idle && !suppressOutputs
      ensures written == [] && wasmFsFiles == [] && modules == []
    {
      this.hasWorker := hasWorker;
      commands := map[];
      isRunningCommand := false;
      pending := Idle;
      suppressOutputs := false;
      written := [];
      wasmFsFiles := [];
      modules := [];
    }

    /** `registerCommand`: a later registration under the same name replaces the earlier. */
    method RegisterCommand(name: JsString, entry: Registered)
      modifies this
      ensures commands.Keys == old(commands.Keys) + {name}
      ensures forall n :: n in old(commands) && n != name ==> n in commands && commands[n] == old(commands)[n]
      ensures name in commands && commands[name] == entry
      ensures isRunningCommand == old(isRunningCommand) && pending == old(pending)
      ensures suppressOutputs == old(suppressOutputs) && written == old(written)
      ensures wasmFsFiles == old(wasmFsFiles) && modules == old(modules)
    {
      commands := commands[name := entry];
    }

    /**
     * `_stdout` (and `_stderr`, the same function): nothing while outputs are
     * suppressed; otherwise the value (a number as one character) is written
     * with every line feed turned into "\r\n". Writing `undefined` throws.
     */
    method Stdout(value: Option<Chunk>) returns (thrown: Option<JsString>)
      modifies this
      ensures suppressOutputs || value.None? ==> written == old(written)
      ensures thrown.Some? <==> !suppressOutputs && value.None?
      ensures thrown.Some? ==> thrown.value == REPLACE_OF_UNDEFINED
      ensures !suppressOutputs && value.Some? ==>
        written == old(written) + ExpandNewlines(ChunkText(value.value))
      ensures isRunningCommand == old(isRunningCommand) && pending == old(pending) && suppressOutputs == old(suppressOutputs)
      ensures commands == old(commands) && wasmFsFiles == old(wasmFsFiles) && modules == old(modules)
    {
      if suppressOutputs {
        return None;
      }
      if value.None? {
        return Some(REPLACE_OF_UNDEFINED);
      }
      written := written + ExpandNewlines(ChunkText(value.value));
      thrown := None;
    }

    /**
     * The synchronous part of `runCommand`: a held guard throws and changes
     * nothing; otherwise the guard is taken, suppression is lifted and the
     * loading notice is written.
     */
    method RunCommand() returns (thrown: Option<JsString>)
      requires Valid()
      modifies this
      ensures Valid()
      ensures old(isRunningCommand) ==>
        thrown == Some(ALREADY_RUNNING) && pending == old(pending) && isRunningCommand &&
        written == old(written) && suppressOutputs == old(suppressOutputs)
      ensures !old(isRunningCommand) ==>
        thrown.None? && pending == InteractiveRun && !suppressOutputs &&
        written == old(written) + LOADING
      ensures commands == old(commands) && wasmFsFiles == old(wasmFsFiles) && modules == old(modules)
    {
      if isRunningCommand {
        return Some(ALREADY_RUNNING);
      }
      isRunningCommand := true;
      pending := InteractiveRun;
      suppressOutputs := false;
      // `_stdout` with outputs just enabled writes the notice as it is (`LoadingUnchanged`)
      written := written + LOADING;
      thrown := None;
    }

    /** The synchronous part of `runCommandHeadless`: the same guard, nothing written. */
    method RunCommandHeadless() returns (thrown: Option<JsString>)
      requires Valid()
      modifies this
      ensures Valid()
      ensures old(isRunningCommand) ==> thrown == Some(ALREADY_RUNNING) && pending == old(pending)
      ensures !old(isRunningCommand) ==> thrown.None? && pending == HeadlessRun
      ensures written == old(written) && suppressOutputs == old(suppressOutputs)
      ensures commands == old(commands) && wasmFsFiles == old(wasmFsFiles) && modules == old(modules)
    {
      if isRunningCommand {
        return Some(ALREADY_RUNNING);
      }
      isRunningCommand := true;
      pending := HeadlessRun;
      thrown := None;
    }

    /** The module is resolved: the loading notice's line is cleared before the run. */
    method OnModuleReady()
      modifies this
      ensures written == old(written) + CLEAR_LINE
      ensures isRunningCommand == old(isRunningCommand) && pending == old(pending) && suppressOutputs == old(suppressOutputs)
      ensures commands == old(commands) && wasmFsFiles == old(wasmFsFiles) && modules == old(modules)
    {
      written := written + CLEAR_LINE;
    }

    /** An interactive run's `onFinish`: the guard is released, the files kept, the promise resolved. */
    method OnFinish(files: seq<File>) returns (s: Settlement)
      modifies this
      ensures Valid() && !isRunningCommand && pending == Idle && wasmFsFiles == files
      ensures s == if old(pending) == InteractiveRun then Resolved else Unsettled
      ensures written == old(written) && suppressOutputs == old(suppressOutputs)
      ensures commands == old(commands) && modules == old(modules)
    {
      isRunningCommand := false;
      wasmFsFiles := files;
      s := if pending == InteractiveRun then Resolved else Unsettled;
      pending := Idle;
    }

    /** A headless run's `onFinish`: the guard is released and the promise resolves with the outputs. */
    method OnHeadlessFinish(result: HeadlessResult) returns (s: Settlement)
      modifies this
      ensures Valid() && !isRunningCommand && pending == Idle
      ensures s == if old(pending) == HeadlessRun then ResolvedWith(result.stdout) else Unsettled
      ensures written == old(written) && suppressOutputs == old(suppressOutputs)
      ensures commands == old(commands) && wasmFsFiles == old(wasmFsFiles) && modules == old(modules)
    {
      isRunningCommand := false;
      s := if pending == HeadlessRun then ResolvedWith(result.stdout) else Unsettled;
      pending := Idle;
    }

    /**
     * Module resolution failed: the guard is released and the run's promise
     * rejects (an interactive run's reason is prefixed with "\r\n").
     */
    method OnModuleFailure(reason: JsString, headless: bool) returns (s: Settlement)
      modifies this
      ensures Valid() && !isRunningCommand && pending == Idle
      ensures headless ==> s == if old(pending) == HeadlessRun then Rejected(reason) else Unsettled
      ensures !headless ==> s == if old(pending) == InteractiveRun then Rejected(WasmRunning.CRLF() + reason) else Unsettled
      ensures written == old(written) && suppressOutputs == old(suppressOutputs)
      ensures commands == old(commands) && wasmFsFiles == old(wasmFsFiles) && modules == old(modules)
    {
      isRunningCommand := false;
      if headless {
        s := if pending == HeadlessRun then Rejected(reason) else Unsettled;
      } else {
        s := if pending == InteractiveRun then Rejected(WasmRunning.CRLF() + reason) else Unsettled;
      }
      pending := Idle;
    }

    /**
     * Terminal input as written. Ctrl+C with a worker suppresses further
     * output, rejects an open interactive run with "Ctrl + C" and clears the
     * flag (the worker is replaced, which is not modelled). An open headless
     * run is left unsettled, its worker gone, while the flag is cleared.
     * Anything else, or Ctrl+C without a worker, changes nothing.
     */
    method OnXtermDataAsWritten(data: JsString) returns (s: Settlement)
      modifies this
      ensures data == [ETX] && hasWorker ==>
        suppressOutputs && !isRunningCommand && (pending, s) == InterruptAsWritten(old(pending))
      ensures data == [ETX] && hasWorker && old(pending) == HeadlessRun ==> !Valid() && s == Unsettled
      ensures data == [ETX] && hasWorker && old(pending) != HeadlessRun ==> Valid()
      ensures !(data == [ETX] && hasWorker) ==>
        s == Unsettled && suppressOutputs == old(suppressOutputs) &&
        isRunningCommand == old(isRunningCommand) && pending == old(pending)
      ensures written == old(written) && commands == old(commands)
      ensures wasmFsFiles == old(wasmFsFiles) && modules == old(modules)
    {
      s := Unsettled;
      if data == [ETX] && hasWorker {
        suppressOutputs := true;
        if pending == InteractiveRun {
          s := Rejected(CTRL_C);
          pending := Idle;
        }
        isRunningCommand := false;
      }
    }

    /**
     * Terminal input as evidently intended: Ctrl+C with a worker also
     * rejects an open headless run with "Ctrl + C", so whichever run is
     * open ends and the guard is free again.
     */
    method OnXtermData(data: JsString) returns (s: Settlement)
      requires Valid()
      modifies this
      ensures Valid()
      ensures data == [ETX] && hasWorker ==>
        suppressOutputs && !isRunningCommand && (pending, s) == Interrupt(old(pending))
      ensures !(data == [ETX] && hasWorker) ==>
        s == Unsettled && suppressOutputs == old(suppressOutputs) &&
        isRunningCommand == old(isRunningCommand) && pending == old(pending)
      ensures written == old(written) && commands == old(commands)
      ensures wasmFsFiles == old(wasmFsFiles) && modules == old(modules)
    {
      s := Unsettled;
      if data == [ETX] && hasWorker {
        suppressOutputs := true;
        if pending != Idle {
          s := Rejected(CTRL_C);
        }
        isRunningCommand := false;
        pending := Idle;
      }
    }

    /**
     * `_stdinProxy`, once the user answered `input`: the prompt line is
     * cleared, the answer and a line feed are written into the stdin window
     * and the worker is told to go on.
     */
    method StdinProxy(shared: SharedBuffers, input: JsString)
      requires shared.Valid()
      modifies this, shared.stdin, shared.pause
      ensures written == old(written) + CLEAR_PROMPT
      ensures shared.stdin[..] == Filled(input + [LF], STDIN_SLOTS) && shared.pause[..] == [GO]
      ensures isRunningCommand == old(isRunningCommand) && pending == old(pending) && suppressOutputs == old(suppressOutputs)
      ensures commands == old(commands) && wasmFsFiles == old(wasmFsFiles) && modules == old(modules)
    {
      written := written + CLEAR_PROMPT;
      shared.Answer(input + [LF]);
    }

    /** The `forEach` over the module cache: the last entry with the name wins. */
    method FindModule(name: Name) returns (found: Option<ModuleEntry>)
      ensures found == LastMatch(modules, name)
    {
      found := None;
      var i := 0;
      while i < |modules|
        invariant 0 <= i <= |modules|
        invariant found == LastMatch(modules[..i], name)
      {
        assert modules[..i + 1][..i] == modules[..i];
        if modules[i].name == name {
          found := Some(modules[i]);
        }
        i := i + 1;
      }
      assert modules[..i] == modules;
    }

    /**
     * `_getOrInitWasmModule`: a cached module is reused. Otherwise the
     * binary is fetched from the server (found: an Emscripten module) or
     * else from the package registry (a Wasmer module; its failure rejects
     * with its text), compiled, added to the cache and returned. What the
     * fetch and the compile give is the parameter `f`.
     */
    method GetOrInitWasmModule(name: Name, f: Fetch) returns (r: Resolution)
      modifies this
      ensures var cached := LastMatch(old(modules), name);
        (cached.Some? ==> r == Ready(cached.value, false) && modules == old(modules)) &&
        (cached.None? && !f.foundOnServer && f.registryError.Some? ==>
          r == Unavailable(f.registryError.value) && modules == old(modules)) &&
        (cached.None? && (f.foundOnServer || f.registryError.None?) && f.compileError.Some? ==>
          r == Unavailable(f.compileError.value) && modules == old(modules)) &&
        (cached.None? && (f.foundOnServer || f.registryError.None?) && f.compileError.None? ==>
          r == Ready(ModuleEntry(name, if f.foundOnServer then Emscripten else Wasmer, f.compiled), true) &&
          modules == old(modules) + [r.entry])
      ensures r == Resolve(old(modules), name, f)
      ensures modules == old(modules) + (if r.Ready? && r.compiledNow then [r.entry] else [])
      ensures r.Ready? ==> LastMatch(modules, name) == Some(r.entry)
      ensures isRunningCommand == old(isRunningCommand) && pending == old(pending) && suppressOutputs == old(suppressOutputs)
      ensures commands == old(commands) && wasmFsFiles == old(wasmFsFiles) && written == old(written)
    {
      var cached := FindModule(name);
      if cached.Some? {
        return Ready(cached.value, false);
      }
      var kind := Emscripten;
      if !f.foundOnServer {
        kind := Wasmer;
        if f.registryError.Some? {
          return Unavailable(f.registryError.value);
        }
      }
      if f.compileError.Some? {
        return Unavailable(f.compileError.value);
      }
      var entry := ModuleEntry(name, kind, f.compiled);
      CachedModuleFound(modules, entry, name);
      modules := modules + [entry];
      r := Ready(entry, true);
    }

    /**
     * `runLine`'s `catch`: the error is written with "\r\n" directly to the
     * terminal (suppression does not apply) and the line stops.
     */
    method FailStep(before: seq<LineEvent>, text: JsString, preset: Option<JsString>) returns (st: Step)
      modifies this
      ensures st == Step(before + [Wrote(text + WasmRunning.CRLF())], preset, true)
      ensures WrittenText(st.events) == WrittenText(before) + (text + WasmRunning.CRLF())
      ensures LastStored(wasmFsFiles, st.events) == LastStored(wasmFsFiles, before)
      ensures Launched(st.events) <==> Launched(before)
      ensures CachedEntries(st.events) == CachedEntries(before)
      ensures written == old(written) + (text + WasmRunning.CRLF())
      ensures isRunningCommand == old(isRunningCommand) && pending == old(pending) && suppressOutputs == old(suppressOutputs)
      ensures commands == old(commands) && wasmFsFiles == old(wasmFsFiles) && modules == old(modules)
    {
      written := written + (text + WasmRunning.CRLF());
      st := Step(before + [Wrote(text + WasmRunning.CRLF())], preset, true);
      AppendWrote(wasmFsFiles, before, text + WasmRunning.CRLF());
    }

    /**
     * A WebAssembly stage run to its end: the guard is taken (a held guard
     * throws, and the line writes the error), the module resolved against
     * the cache, and the run's promise settles; its value (the headless
     * stdout) or its rejection is what the line continues with.
     */
    method RunWasmStage(name: Name, argv: seq<JsString>, preset: Option<JsString>, f: Fetch, out: RunOutput, last: bool)
      returns (st: Step)
      requires Valid()
      modifies this
      ensures Valid()
      ensures st == WasmStep(name, argv, preset, StageEnd(old(modules), name, f, out), last, old(isRunningCommand))
      ensures written == old(written) + WrittenText(st.events)
      ensures wasmFsFiles == LastStored(old(wasmFsFiles), st.events)
      ensures modules == old(modules) + CachedEntries(st.events)
      ensures isRunningCommand == old(isRunningCommand) && pending == old(pending)
      ensures suppressOutputs == if Launched(st.events) then false else old(suppressOutputs)
      ensures commands == old(commands)
    {
      if isRunningCommand {
        st := FailStep([], ALREADY_RUNNING, preset);
        HeldEffect(old(wasmFsFiles), name, argv, preset, StageEnd(old(modules), name, f, out), last);
        return;
      }
      if !last {
        st := RunHeadlessStage(name, argv, preset, f, out);
      } else {
        st := RunInteractiveStage(name, argv, preset, f, out);
      }
    }

    /** A stage inside a pipe, guard free: a headless run whose stdout becomes the next preset. */
    method RunHeadlessStage(name: Name, argv: seq<JsString>, preset: Option<JsString>, f: Fetch, out: RunOutput)
      returns (st: Step)
      requires Valid() && !isRunningCommand
      modifies this
      ensures Valid()
      ensures st == WasmStep(name, argv, preset, StageEnd(old(modules), name, f, out), false, false)
      ensures written == old(written) + WrittenText(st.events) && !Launched(st.events)
      ensures wasmFsFiles == old(wasmFsFiles) && wasmFsFiles == LastStored(old(wasmFsFiles), st.events)
      ensures modules == old(modules) + CachedEntries(st.events)
      ensures !isRunningCommand && pending == old(pending) && suppressOutputs == old(suppressOutputs)
      ensures commands == old(commands)
    {
      ghost var end := StageEnd(modules, name, f, out);
      HeadlessEffect(wasmFsFiles, name, argv, preset, end);
      var thrown := RunCommandHeadless();
      var r := GetOrInitWasmModule(name, f);
      st := SettleHeadless(name, argv, preset, r, out, end);
    }

    /** A headless run whose module resolved as `r` settles: it finishes on a resolved module, else the failure is written. */
    method SettleHeadless(name: Name, argv: seq<JsString>, preset: Option<JsString>, r: Resolution, out: RunOutput,
                          ghost end: WasmEnd)
      returns (st: Step)
      requires pending == HeadlessRun
      requires end == if r.Ready? then Finished(r.entry, r.compiledNow, out.stdout, out.files) else LoadFailed(r.reason)
      modifies this
      ensures st == WasmStep(name, argv, preset, end, false, false)
      ensures written == old(written) + WrittenText(st.events)
      ensures Valid() && !isRunningCommand && pending == Idle && suppressOutputs == old(suppressOutputs)
      ensures commands == old(commands) && wasmFsFiles == old(wasmFsFiles) && modules == old(modules)
    {
      match r {
        case Ready(entry, compiledNow) =>
          var output := FinishHeadless(out.stdout);
          st := Step([Headless(name, argv, preset), ModuleReady(entry, compiledNow), Wrote(CLEAR_LINE)], Some(output), false);
        case Unavailable(reason) =>
          var s := OnModuleFailure(reason, true);
          assert s.reason == reason;
          st := FailStep([Headless(name, argv, preset)], reason, preset);
      }
      assert st == WasmStep(name, argv, preset, end, false, false);
      HeadlessEffect(old(wasmFsFiles), name, argv, preset, end);
    }

    /** A headless run's module is ready and the run finishes: its line is cleared, the guard released, its stdout returned. */
    method FinishHeadless(stdout: JsString) returns (output: JsString)
      requires pending == HeadlessRun
      modifies this
      ensures output == stdout
      ensures written == old(written) + CLEAR_LINE
      ensures Valid() && !isRunningCommand && pending == Idle && suppressOutputs == old(suppressOutputs)
      ensures commands == old(commands) && wasmFsFiles == old(wasmFsFiles) && modules == old(modules)
    {
      OnModuleReady();
      var s := OnHeadlessFinish(HeadlessResult(stdout, stdout, []));
      output := s.stdout;
    }

    /** The last stage, guard free: an interactive run, announced, whose files are stored when it finishes. */
    method RunInteractiveStage(name: Name, argv: seq<JsString>, preset: Option<JsString>, f: Fetch, out: RunOutput)
      returns (st: Step)
      requires Valid() && !isRunningCommand
      modifies this
      ensures Valid()
      ensures st == WasmStep(name, argv, preset, StageEnd(old(modules), name, f, out), true, false)
      ensures written == old(written) + WrittenText(st.events)
      ensures wasmFsFiles == LastStored(old(wasmFsFiles), st.events)
      ensures modules == old(modules) + CachedEntries(st.events)
      ensures !isRunningCommand && pending == old(pending)
      ensures Launched(st.events) && !suppressOutputs
      ensures commands == old(commands)
    {
      ghost var end := StageEnd(modules, name, f, out);
      InteractiveEffect(wasmFsFiles, name, argv, preset, end);
      var thrown := RunCommand();
      var r := GetOrInitWasmModule(name, f);
      var start := [Interactive(name, argv, preset), Wrote(LOADING)];
      match r {
        case Ready(entry, compiledNow) =>
          assert end == Finished(entry, compiledNow, out.stdout, out.files);
          FinishRun(out.files);
          ConcatAssoc(old(written), LOADING, CLEAR_LINE);
          st := Step(start + [ModuleReady(entry, compiledNow), Wrote(CLEAR_LINE), Stored(out.files)], None, false);
        case Unavailable(reason) =>
          assert end == LoadFailed(reason);
          FailRun(reason, preset);
          ConcatAssoc(old(written), LOADING, WasmRunning.CRLF() + reason + WasmRunning.CRLF());
          st := Step(start + [Wrote(WasmRunning.CRLF() + reason + WasmRunning.CRLF())], preset, true);
      }
    }

    /** An interactive run's module is ready and the run finishes: its line is cleared, the guard released and its files kept. */
    method FinishRun(files: seq<File>)
      modifies this
      ensures written == old(written) + CLEAR_LINE && wasmFsFiles == files
      ensures Valid() && !isRunningCommand && pending == Idle && suppressOutputs == old(suppressOutputs)
      ensures commands == old(commands) && modules == old(modules)
    {
      OnModuleReady();
      var s := OnFinish(files);
    }

    /**
     * An interactive run's module failed to load: the guard is released, the
     * promise rejected with "\r\n" and the reason, and `runLine`'s `catch`
     * writes that with another "\r\n".
     */
    method FailRun(reason: JsString, preset: Option<JsString>)
      requires pending == InteractiveRun
      modifies this
      ensures written == old(written) + (WasmRunning.CRLF() + reason + WasmRunning.CRLF())
      ensures Valid() && !isRunningCommand && pending == Idle && suppressOutputs == old(suppressOutputs)
      ensures commands == old(commands) && wasmFsFiles == old(wasmFsFiles) && modules == old(modules)
    {
      var s := OnModuleFailure(reason, false);
      var caught := FailStep([], s.reason, preset);
    }

    /**
     * `runLine`: the stages between `|` run in order, each given the preset
     * the previous one produced (none for the first) and the module cache
     * as the earlier stages left it; an error is written with "\r\n" and
     * ends the line. The stages are run by `RunStages`, and what they
     * wrote, the files an interactive run left, the modules compiled on the
     * way and the lifted suppression are then applied to the terminal.
     */
    method RunLine(line: JsString, backend: Backend) returns (events: seq<LineEvent>)
      requires Valid()
      modifies this
      ensures Valid()
      ensures events == LineFrom(old(commands), backend, Split(line, PIPE), 0, None, old(modules), old(isRunningCommand), old(suppressOutputs))
      ensures written == old(written) + WrittenText(events)
      ensures wasmFsFiles == LastStored(old(wasmFsFiles), events)
      ensures modules == old(modules) + CachedEntries(events)
      ensures suppressOutputs == if Launched(events) then false else old(suppressOutputs)
      ensures isRunningCommand == old(isRunningCommand) && pending == old(pending)
      ensures commands == old(commands)
    {
      events := RunStages(commands, backend, Split(line, PIPE), modules, isRunningCommand, suppressOutputs);
      ApplyLine(events);
    }

    /** What a line's events leave on the terminal: their text, the last files, the modules compiled. */
    method ApplyLine(events: seq<LineEvent>)
      modifies this
      ensures written == old(written) + WrittenText(events)
      ensures wasmFsFiles == LastStored(old(wasmFsFiles), events)
      ensures modules == old(modules) + CachedEntries(events)
      ensures suppressOutputs == if Launched(events) then false else old(suppressOutputs)
      ensures isRunningCommand == old(isRunningCommand) && pending == old(pending)
      ensures commands == old(commands)
    {
      written := written + WrittenText(events);
      wasmFsFiles := LastStored(wasmFsFiles, events);
      modules := modules + CachedEntries(events);
      if Launched(events) {
        suppressOutputs := false;
      }
    }
  }

  /**
   * One stage of a line: parse it, then run a registered command (draining
   * a generator with `CollectYields`) or a WebAssembly program against the
   * cache. What the stage yields is how the line from stage `k` on begins.
   */
  method RunStage(commands: map<JsString, Registered>, backend: Backend,
                  stages: seq<JsString>, k: nat, preset: Option<JsString>, modules: seq<ModuleEntry>, held: bool, suppress: bool)
    returns (st: Step)
    requires k < |stages|
    ensures st == StageStep(commands, backend, stages[k], k == |stages| - 1, preset, modules, held, suppress)
    ensures LineFrom(commands, backend, stages, k, preset, modules, held, suppress)
      == if st.stop then st.events
         else st.events + LineFrom(commands, backend, stages, k + 1, st.next, modules + CachedEntries(st.events), held, suppress)
  {
    var last := k == |stages| - 1;
    var (name, argv) := Parse(stages[k]);
    if name.Some? && name.value in commands {
      match commands[name.value] {
        case Callable(respond) =>
          var result := respond(argv, preset);
          var produced := CallbackOutput(result);
          if result.Generator? {
            var output := CollectYields(result.values);
            produced := Produced(output);
          }
          st := OutputStep(name.value, argv, preset, produced, last, suppress);
        case NotCallable =>
          st := Step([NoFunction(name.value)], preset, false);
      }
    } else {
      var end := StageEnd(modules, name, backend.fetch(name), backend.run(name, argv, preset, !last));
      st := WasmStep(name, argv, preset, end, last, held);
    }
    assert st == StageStep(commands, backend, stages[k], last, preset, modules, held, suppress);
  }

  /** The loop of `runLine` over the stages, collecting their events and the modules they cache. */
  method RunStages(commands: map<JsString, Registered>, backend: Backend,
                   stages: seq<JsString>, modules: seq<ModuleEntry>, held: bool, suppress: bool)
    returns (events: seq<LineEvent>)
    ensures events == LineFrom(commands, backend, stages, 0, None, modules, held, suppress)
  {
    ghost var all := LineFrom(commands, backend, stages, 0, None, modules, held, suppress);
    events := [];
    var preset: Option<JsString> := None;
    var cache := modules;
    var i := 0;
    var done := false;
    while i < |stages| && !done
      invariant 0 <= i <= |stages|
      invariant cache == modules + CachedEntries(events)
      invariant done ==> events == all
      invariant !done ==> events + LineFrom(commands, backend, stages, i, preset, cache, held, suppress) == all
    {
      var st := RunStage(commands, backend, stages, i, preset, cache, held, suppress);
      AdvanceLine(commands, backend, stages, i, preset, cache, held, suppress, events, st, all);
      AdvanceCache(modules, cache, events, st.events);
      events := events + st.events;
      cache := cache + CachedEntries(st.events);
      preset := st.next;
      i := i + 1;
      done := st.stop;
    }
  }

  /** The loop's cache: the modules a stage caches follow those of the stages before it. */
  lemma AdvanceCache(modules: seq<ModuleEntry>, cache: seq<ModuleEntry>, events: seq<LineEvent>, more: seq<LineEvent>)
    requires cache == modules + CachedEntries(events)
    ensures cache + CachedEntries(more) == modules + CachedEntries(events + more)
  {
    CachedAppend(events, more);
  }

  /**
   * The loop's bookkeeping: stage `i`'s events move from the rest of the
   * line to what was run, and (unless the stage stopped) the rest of the
   * line starts at stage `i + 1` with its output and the cache it left.
   */
  lemma AdvanceLine(commands: map<JsString, Registered>, backend: Backend, stages: seq<JsString>, i: nat,
                    preset: Option<JsString>, cache: seq<ModuleEntry>, held: bool, suppress: bool,
                    events: seq<LineEvent>, st: Step, all: seq<LineEvent>)
    requires i < |stages|
    requires events + LineFrom(commands, backend, stages, i, preset, cache, held, suppress) == all
    requires st == StageStep(commands, backend, stages[i], i == |stages| - 1, preset, cache, held, suppress)
    ensures st.stop ==> events + st.events == all
    ensures !st.stop ==>
      events + st.events + LineFrom(commands, backend, stages, i + 1, st.next, cache + CachedEntries(st.events), held, suppress) == all
  {
    if !st.stop {
      var after := LineFrom(commands, backend, stages, i + 1, st.next, cache + CachedEntries(st.events), held, suppress);
      assert LineFrom(commands, backend, stages, i, preset, cache, held, suppress) == st.events + after;
      assert events + st.events + after == events + (st.events + after);
    }
  }

}
