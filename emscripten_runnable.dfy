/**
 * Running an Emscripten-compiled program. The Emscripten JS runtime and the
 * program itself are opaque: the runtime either loads or fails, and the
 * program is the sequence of tty operations it performs, possibly ending in
 * an abort. What is modelled is the glue around them: defaults, the preset
 * reader, the tty device hooks, the file hand-over and the completion
 * callbacks.
 */
module EmscriptenRun {
  import opened JsText
  import opened Runnables
  import StdinQueue

  /** The two registered tty devices: makedev(5, 0) for stdout, makedev(6, 0) for stderr. */
  datatype Device = TtyOut | TtyErr

  function StreamOf(dev: Device): Stream
  {
    if dev == TtyOut then Stdout else Stderr
  }

  /** One tty operation of the program: a stdin read, a character put, a flush. */
  datatype Op = ReadStdin | PutChar(dev: Device, val: int) | FlushTty(dev: Device)

  /** What the program does between `callMain` and its return: its operations, then possibly an abort. */
  datatype Program = Program(ops: seq<Op>, abort: Option<JsString>)

  /** The observable steps of a run, in order. */
  datatype Event =
    | StdinCall                        // the stdin handler was asked for a character
    | PresetRead(value: Option<int>)   // the preset reader answered a read
    | Output(stream: Stream, val: int) // the stdout or stderr handler got a character
    | FsWrite(name: JsString, data: seq<int>)
    | WriteLogged(name: JsString)      // a file write threw and was logged
    | CallMain(argv: seq<JsString>)
    | Success(target: Target, files: seq<File>)
    | Failure(target: Target, reason: JsString)
    | Finish(target: Target, arg: FinishArg)

  function HandlerOf(h: Handlers, dev: Device): Handler
  {
    if dev == TtyOut then h.stdout else h.stderr
  }

  /**
   * The events of the program's operations, from preset cursor `index`:
   * reads go to the preset reader when there is a preset and to the stdin
   * handler otherwise; puts go to the device's output handler.
   */
  function OpsTrace(ops: seq<Op>, preset: Option<JsString>, index: nat, h: Handlers): seq<Event>
    decreases |ops|
  {
    if ops == [] then []
    else match ops[0]
      case ReadStdin =>
        if preset.Some? then
          var (v, next) := PresetStep(preset.value, index);
          [PresetRead(v)] + OpsTrace(ops[1..], preset, next, h)
        else
          (if h.stdin == Given then [StdinCall] else []) + OpsTrace(ops[1..], preset, index, h)
      case PutChar(dev, v) =>
        (if HandlerOf(h, dev) == Given then [Output(StreamOf(dev), v)] else []) + OpsTrace(ops[1..], preset, index, h)
      case FlushTty(_) => OpsTrace(ops[1..], preset, index, h)
  }

  /** The characters the program puts, with their streams, in order. */
  function PutChars(ops: seq<Op>): seq<Piece>
  {
    if ops == [] then []
    else (if ops[0].PutChar? then [Piece(StreamOf(ops[0].dev), FromCharCode(ops[0].val))] else []) + PutChars(ops[1..])
  }

  /** The output events of a trace as captured text pieces. */
  function OutputPieces(trace: seq<Event>): seq<Piece>
  {
    if trace == [] then []
    else (if trace[0].Output? then [Piece(trace[0].stream, FromCharCode(trace[0].val))] else []) + OutputPieces(trace[1..])
  }

  lemma {:induction false} OutputPiecesAppend(a: seq<Event>, b: seq<Event>)
    ensures OutputPieces(a + b) == OutputPieces(a) + OutputPieces(b)
    decreases |a|
  {
    if a != [] {
      assert (a + b)[1..] == a[1..] + b;
      OutputPiecesAppend(a[1..], b);
    } else {
      assert a + b == b;
    }
  }

  /** The number of stdin reads the program makes. */
  function NumReads(ops: seq<Op>): nat
  {
    if ops == [] then 0 else (if ops[0].ReadStdin? then 1 else 0) + NumReads(ops[1..])
  }

  /** The values the preset reader handed out, in order. */
  function PresetValues(trace: seq<Event>): seq<Option<int>>
  {
    if trace == [] then []
    else (if trace[0].PresetRead? then [trace[0].value] else []) + PresetValues(trace[1..])
  }

  /** With both output handlers given, every put character reaches its own stream, in order. */
  lemma {:induction false} OutputsFollowProgram(ops: seq<Op>, preset: Option<JsString>, index: nat, h: Handlers)
    requires h.stdout == Given && h.stderr == Given
    ensures OutputPieces(OpsTrace(ops, preset, index, h)) == PutChars(ops)
    decreases |ops|
  {
    if ops != [] {
      match ops[0]
      case ReadStdin =>
        if preset.Some? {
          var (v, next) := PresetStep(preset.value, index);
          OutputsFollowProgram(ops[1..], preset, next, h);
          OutputPiecesAppend([PresetRead(v)], OpsTrace(ops[1..], preset, next, h));
        } else {
          OutputsFollowProgram(ops[1..], preset, index, h);
          var asked := if h.stdin == Given then [StdinCall] else [];
          OutputPiecesAppend(asked, OpsTrace(ops[1..], preset, index, h));
        }
      case PutChar(dev, v) =>
        OutputsFollowProgram(ops[1..], preset, index, h);
        OutputPiecesAppend([Output(StreamOf(dev), v)], OpsTrace(ops[1..], preset, index, h));
      case FlushTty(_) =>
        OutputsFollowProgram(ops[1..], preset, index, h);
    }
  }

  lemma {:induction false} PresetValuesAppend(a: seq<Event>, b: seq<Event>)
    ensures PresetValues(a + b) == PresetValues(a) + PresetValues(b)
    decreases |a|
  {
    if a != [] {
      assert (a + b)[1..] == a[1..] + b;
      PresetValuesAppend(a[1..], b);
    } else {
      assert a + b == b;
    }
  }

  /**
   * With a preset, the program's reads are answered by the preset reader
   * alone: the values handed out are exactly the reader's replay.
   */
  lemma {:induction false} ReadsFollowPreset(ops: seq<Op>, preset: JsString, index: nat, h: Handlers)
    ensures PresetValues(OpsTrace(ops, Some(preset), index, h)) == PresetReads(preset, index, NumReads(ops))
    ensures StdinCall !in OpsTrace(ops, Some(preset), index, h)
    decreases |ops|
  {
    if ops != [] {
      match ops[0]
      case ReadStdin =>
        var (v, next) := PresetStep(preset, index);
        ReadsFollowPreset(ops[1..], preset, next, h);
        PresetValuesAppend([PresetRead(v)], OpsTrace(ops[1..], Some(preset), next, h));
      case PutChar(dev, v) =>
        ReadsFollowPreset(ops[1..], preset, index, h);
        var o := if HandlerOf(h, dev) == Given then [Output(StreamOf(dev), v)] else [];
        PresetValuesAppend(o, OpsTrace(ops[1..], Some(preset), index, h));
      case FlushTty(_) =>
        ReadsFollowPreset(ops[1..], preset, index, h);
    }
  }

  /** `tty.output` of a device after the operations: what was put since its last flush. */
  function TtyOutput(ops: seq<Op>, dev: Device): seq<int>
  {
    if ops == [] then []
    else
      var last := ops[|ops| - 1];
      var before := TtyOutput(ops[..|ops| - 1], dev);
      if last.PutChar? && last.dev == dev then before + [last.val]
      else if last.FlushTty? && last.dev == dev then []
      else before
  }

  /** A file system node as the runtime's FS shows it. */
  datatype FsNode =
    | FileNode(path: JsString, timestamp: int, content: seq<int>)
    | DirNode(path: JsString, children: seq<FsNode>)
    | OtherNode(path: JsString)

  /** Every file below the given nodes, depth first, in directory order. */
  function Walk(nodes: seq<FsNode>, includeBinary: bool): (files: seq<File>)
    ensures forall i :: 0 <= i < |files| ==> files[i].bytes.Uint8Array?
    decreases nodes
  {
    if nodes == [] then []
    else
      var here := match nodes[0]
        case FileNode(p, t, c) => [File(p, t, Uint8Array(if includeBinary then c else []))]
        case DirNode(_, children) => Walk(children, includeBinary)
        case OtherNode(_) => [];
      here + Walk(nodes[1..], includeBinary)
  }

  /**
   * The ignore-list filter as written: with a non-empty list, a file is kept
   * when SOME ignore entry has a different name.
   */
  function IgnoreFilterAsWritten(files: seq<File>, ignore: seq<File>): (kept: seq<File>)
    ensures |kept| <= |files|
  {
    if ignore == [] || files == [] then files
    else
      var f := files[0];
      (if exists j :: 0 <= j < |ignore| && ignore[j].name != f.name then [f] else []) + IgnoreFilterAsWritten(files[1..], ignore)
  }

  /** The evidently intended filter: a file is kept when NO ignore entry has its name. */
  function IgnoreFilter(files: seq<File>, ignore: seq<File>): (kept: seq<File>)
    ensures forall i :: 0 <= i < |kept| ==> forall j :: 0 <= j < |ignore| ==> kept[i].name != ignore[j].name
    ensures forall i :: 0 <= i < |kept| ==> kept[i] in files
  {
    if files == [] then []
    else
      var f := files[0];
      (if forall j :: 0 <= j < |ignore| ==> ignore[j].name != f.name then [f] else []) + IgnoreFilter(files[1..], ignore)
  }

  /** A file whose name no ignore entry carries is kept by the intended filter. */
  lemma {:induction false} IgnoreFilterKeeps(files: seq<File>, ignore: seq<File>, f: File)
    requires f in files
    requires forall j :: 0 <= j < |ignore| ==> ignore[j].name != f.name
    ensures f in IgnoreFilter(files, ignore)
    decreases |files|
  {
    if files[0] != f {
      IgnoreFilterKeeps(files[1..], ignore, f);
    }
  }

  /** With an empty ignore list (the only list the runs pass) both filters keep everything. */
  lemma {:induction false} IgnoreFiltersAgreeWhenEmpty(files: seq<File>)
    ensures IgnoreFilter(files, []) == files && IgnoreFilterAsWritten(files, []) == files
    decreases |files|
  {
    if files != [] {
      IgnoreFiltersAgreeWhenEmpty(files[1..]);
    }
  }

  /** As written, ignoring two files keeps both of them. */
  lemma IgnoreFilterAsWrittenKeepsIgnored(a: File, b: File)
    requires a.name != b.name
    ensures IgnoreFilterAsWritten([a, b], [a, b]) == [a, b]
    ensures IgnoreFilter([a, b], [a, b]) == []
  {
    var fs := [a, b];
    assert fs[1..] == [b];
    assert [b][1..] == [];
    assert fs[0].name == a.name && fs[1].name == b.name;
    assert IgnoreFilter([b], fs) == [] by {
      assert !(forall j :: 0 <= j < |fs| ==> fs[j].name != b.name);
    }
    assert !(forall j :: 0 <= j < |fs| ==> fs[j].name != a.name);
  }

  /** `_readFilesFromFS(instance, "/", includeBinary, ignore)`, with the intended filter. */
  function ReadFilesFromFS(root: seq<FsNode>, includeBinary: bool, ignore: seq<File>): (files: seq<File>)
    ensures forall i :: 0 <= i < |files| ==> files[i].bytes.Uint8Array?
    ensures ignore == [] ==> files == Walk(root, includeBinary)
  {
    IgnoreFiltersAgreeWhenEmpty(Walk(root, includeBinary));
    IgnoreFilter(Walk(root, includeBinary), ignore)
  }

  /** The FS events of writing `files`: one per `Uint8Array` file; the others are skipped. */
  function WriteEvents(files: seq<File>, failing: set<JsString>): seq<Event>
  {
    if files == [] then []
    else
      var f := files[|files| - 1];
      WriteEvents(files[..|files| - 1], failing) +
        (if !f.bytes.Uint8Array? then []
         else if f.name in failing then [WriteLogged(f.name)]
         else [FsWrite(f.name, f.bytes.data)])
  }

  /** Only `Uint8Array` files reach the FS, each with its own name and bytes. */
  lemma {:induction false} WriteEventsOnlyBytes(files: seq<File>, failing: set<JsString>)
    ensures forall e :: e in WriteEvents(files, failing) && e.FsWrite? ==>
      exists f :: f in files && f.bytes.Uint8Array? && e == FsWrite(f.name, f.bytes.data)
    ensures forall e :: e in WriteEvents(files, failing) ==> e.FsWrite? || e.WriteLogged?
    decreases |files|
  {
    if files != [] {
      WriteEventsOnlyBytes(files[..|files| - 1], failing);
      forall e | e in WriteEvents(files[..|files| - 1], failing) && e.FsWrite?
        ensures exists f :: f in files && f.bytes.Uint8Array? && e == FsWrite(f.name, f.bytes.data)
      {
        var f :| f in files[..|files| - 1] && f.bytes.Uint8Array? && e == FsWrite(f.name, f.bytes.data);
        assert f in files;
      }
    }
  }

  /** Files read after a run can all be handed to a later run: none of them is skipped. */
  lemma {:induction false} ReadFilesAreWritable(files: seq<File>)
    requires forall i :: 0 <= i < |files| ==> files[i].bytes.Uint8Array?
    ensures |WriteEvents(files, {})| == |files|
    decreases |files|
  {
    if files != [] {
      ReadFilesAreWritable(files[..|files| - 1]);
    }
  }

  /**
   * `_writeFilesToFS`: write every `Uint8Array` file; a write that throws
   * (its name in `failing`) is logged and the loop goes on.
   */
  method WriteFilesToFS(files: seq<File>, failing: set<JsString>) returns (events: seq<Event>)
    ensures events == WriteEvents(files, failing)
  {
    events := [];
    var i := 0;
    while i < |files|
      invariant 0 <= i <= |files|
      invariant events == WriteEvents(files[..i], failing)
    {
      var f := files[i];
      assert files[..i + 1][..i] == files[..i];
      if f.bytes.Uint8Array? {
        if f.name in failing {
          events := events + [WriteLogged(f.name)];
        } else {
          events := events + [FsWrite(f.name, f.bytes.data)];
        }
      }
      i := i + 1;
    }
    assert files[..|files|] == files;
  }

  /** One operation's events, from preset cursor `index`. */
  lemma OpsTraceStep(ops: seq<Op>, preset: Option<JsString>, index: nat, h: Handlers)
    requires ops != []
    ensures ops[0].ReadStdin? && preset.Some? ==>
      OpsTrace(ops, preset, index, h) == [PresetRead(PresetStep(preset.value, index).0)] + OpsTrace(ops[1..], preset, PresetStep(preset.value, index).1, h)
    ensures ops[0].ReadStdin? && preset.None? ==>
      OpsTrace(ops, preset, index, h) == (if h.stdin == Given then [StdinCall] else []) + OpsTrace(ops[1..], preset, index, h)
    ensures ops[0].PutChar? ==>
      OpsTrace(ops, preset, index, h) ==
        (if HandlerOf(h, ops[0].dev) == Given then [Output(StreamOf(ops[0].dev), ops[0].val)] else []) + OpsTrace(ops[1..], preset, index, h)
    ensures ops[0].FlushTty? ==> OpsTrace(ops, preset, index, h) == OpsTrace(ops[1..], preset, index, h)
  {
  }

  /**
   * The program's tty operations against the registered hooks: `get_char`
   * asks the stdin handler (or the preset reader, which replaces stdin when
   * there is a preset), `put_char` pushes onto the device's `tty.output` and
   * forwards to its handler, `flush` empties `tty.output`.
   */
  method RunOps(ops: seq<Op>, preset: Option<JsString>, h: Handlers)
    returns (events: seq<Event>, ttyOut: seq<int>, ttyErr: seq<int>)
    ensures events == OpsTrace(ops, preset, 0, h)
    ensures ttyOut == TtyOutput(ops, TtyOut) && ttyErr == TtyOutput(ops, TtyErr)
  {
    var reader := new PresetReader(if preset.Some? then preset.value else []);
    events, ttyOut, ttyErr := [], [], [];
    var i := 0;
    while i < |ops|
      invariant 0 <= i <= |ops| && reader.Valid()
      invariant reader.preset == if preset.Some? then preset.value else []
      invariant events + OpsTrace(ops[i..], preset, reader.index, h) == OpsTrace(ops, preset, 0, h)
      invariant ttyOut == TtyOutput(ops[..i], TtyOut) && ttyErr == TtyOutput(ops[..i], TtyErr)
      decreases |ops| - i
    {
      var e := OpHooks(ops[i..], preset, h, reader);
      assert ops[i..][1..] == ops[i + 1..];
      ConcatAssoc(events, e, OpsTrace(ops[i + 1..], preset, reader.index, h));
      events := events + e;
      assert ops[..i + 1][..i] == ops[..i];
      ttyOut := TtyStep(ops[..i + 1], TtyOut, ttyOut);
      ttyErr := TtyStep(ops[..i + 1], TtyErr, ttyErr);
      i := i + 1;
    }
    assert ops[..|ops|] == ops;
  }

  /** The hook calls of the first operation, the preset reader advancing on a read. */
  method OpHooks(ops: seq<Op>, preset: Option<JsString>, h: Handlers, reader: PresetReader) returns (e: seq<Event>)
    requires ops != [] && reader.Valid()
    requires reader.preset == if preset.Some? then preset.value else []
    modifies reader
    ensures reader.Valid()
    ensures OpsTrace(ops, preset, old(reader.index), h) == e + OpsTrace(ops[1..], preset, reader.index, h)
  {
    OpsTraceStep(ops, preset, reader.index, h);
    e := [];
    match ops[0] {
      case ReadStdin =>
        if preset.Some? {
          var v := reader.Read();
          e := [PresetRead(v)];
        } else if h.stdin == Given {
          e := [StdinCall];
        }
      case PutChar(dev, v) =>
        if HandlerOf(h, dev) == Given {
          e := [Output(StreamOf(dev), v)];
        }
      case FlushTty(dev) =>
    }
  }

  /** The device's `tty.output` after the last of `ops`: a put pushes, a flush empties. */
  method TtyStep(ops: seq<Op>, dev: Device, before: seq<int>) returns (after: seq<int>)
    requires ops != [] && before == TtyOutput(ops[..|ops| - 1], dev)
    ensures after == TtyOutput(ops, dev)
  {
    var op := ops[|ops| - 1];
    after := before;
    if op.PutChar? && op.dev == dev {
      after := before + [op.val];
    } else if op.FlushTty? && op.dev == dev {
      after := [];
    }
  }

  /** Everything up to (not including) the `finally` step of a run. */
  function ExecTrace(argv: seq<JsString>, h: Handlers, files: seq<File>, cbs: Callbacks, preset: Option<JsString>,
                     load: Load, program: Program, root: seq<FsNode>, failing: set<JsString>): seq<Event>
  {
    if load.LoadFails? then [Failure(cbs.onError, load.reason)]
    else
      WriteEvents(files, failing) + [CallMain(argv)] + OpsTrace(program.ops, preset, 0, h) +
        (if program.abort.Some? then [Failure(cbs.onError, program.abort.value)]
         else [Success(cbs.onSuccess, ReadFilesFromFS(root, true, []))])
  }

  /** The files read after the run, when the run got that far. */
  function FilesPostRun(load: Load, program: Program, root: seq<FsNode>): Option<seq<File>>
  {
    if load.Loaded? && program.abort.None? then Some(ReadFilesFromFS(root, true, [])) else None
  }

  /**
   * The run up to its `finally` step, shared by both generations: defaults,
   * preset reader, file writes, the program's tty operations against the
   * registered device hooks, then the success or error callback.
   */
  method Execute(argv: seq<JsString>, h: Handlers, files: seq<File>, cbs: Callbacks, preset: Preset,
                 load: Load, program: Program, root: seq<FsNode>, failing: set<JsString>)
    returns (trace: seq<Event>, filesPostRun: Option<seq<File>>, ttyOut: seq<int>, ttyErr: seq<int>)
    ensures trace == ExecTrace(argv, h, files, cbs, NormalisePreset(preset), load, program, root, failing)
    ensures filesPostRun == FilesPostRun(load, program, root)
    ensures load.Loaded? ==> ttyOut == TtyOutput(program.ops, TtyOut) && ttyErr == TtyOutput(program.ops, TtyErr)
  {
    var presetText := NormalisePreset(preset);
    ttyOut, ttyErr := [], [];
    filesPostRun := None;
    if load.LoadFails? {
      trace := [Failure(cbs.onError, load.reason)];
      return;
    }
    trace := WriteFilesToFS(files, failing);
    var opsEvents;
    opsEvents, ttyOut, ttyErr := RunOps(program.ops, presetText, h);
    trace := trace + [CallMain(argv)] + opsEvents;
    if program.abort.Some? {
      trace := trace + [Failure(cbs.onError, program.abort.value)];
    } else {
      filesPostRun := Some(ReadFilesFromFS(root, true, []));
      trace := trace + [Success(cbs.onSuccess, filesPostRun.value)];
    }
  }

  /** The program's operations only ever produce I/O events. */
  lemma {:induction false} OpsTraceOnlyIO(ops: seq<Op>, preset: Option<JsString>, index: nat, h: Handlers)
    ensures forall e :: e in OpsTrace(ops, preset, index, h) ==> e.StdinCall? || e.PresetRead? || e.Output?
    decreases |ops|
  {
    if ops != [] {
      OpsTraceStep(ops, preset, index, h);
      match ops[0]
      case ReadStdin =>
        if preset.Some? {
          OpsTraceOnlyIO(ops[1..], preset, PresetStep(preset.value, index).1, h);
        } else {
          OpsTraceOnlyIO(ops[1..], preset, index, h);
        }
      case PutChar(_, _) => OpsTraceOnlyIO(ops[1..], preset, index, h);
      case FlushTty(_) => OpsTraceOnlyIO(ops[1..], preset, index, h);
    }
  }

  /** Writing files produces no output events. */
  lemma {:induction false} WriteEventsNoOutput(files: seq<File>, failing: set<JsString>)
    ensures OutputPieces(WriteEvents(files, failing)) == []
    decreases |files|
  {
    if files != [] {
      var init := WriteEvents(files[..|files| - 1], failing);
      WriteEventsNoOutput(files[..|files| - 1], failing);
      var f := files[|files| - 1];
      var last := if !f.bytes.Uint8Array? then [] else if f.name in failing then [WriteLogged(f.name)] else [FsWrite(f.name, f.bytes.data)];
      OutputPiecesAppend(init, last);
    }
  }

  /**
   * Until its `finally` step a run calls neither `onFinish` nor both of
   * `onSuccess` and `onError`: it reports success exactly when the runtime
   * loaded and the program returned, and an error otherwise.
   */
  lemma ExecTraceOutcome(argv: seq<JsString>, h: Handlers, files: seq<File>, cbs: Callbacks, preset: Option<JsString>,
                         load: Load, program: Program, root: seq<FsNode>, failing: set<JsString>)
    ensures var t := ExecTrace(argv, h, files, cbs, preset, load, program, root, failing);
      (forall e :: e in t ==> !e.Finish?) &&
      ((exists e :: e in t && e.Success?) <==> load.Loaded? && program.abort.None?) &&
      ((exists e :: e in t && e.Failure?) <==> !(load.Loaded? && program.abort.None?))
  {
    if load.Loaded? {
      WriteEventsOnlyBytes(files, failing);
      OpsTraceOnlyIO(program.ops, preset, 0, h);
      var body := WriteEvents(files, failing) + [CallMain(argv)] + OpsTrace(program.ops, preset, 0, h);
      assert forall e :: e in body ==> !e.Finish? && !e.Success? && !e.Failure?;
      var end := if program.abort.Some? then Failure(cbs.onError, program.abort.value)
                 else Success(cbs.onSuccess, ReadFilesFromFS(root, true, []));
      var t := body + [end];
      assert t == ExecTrace(argv, h, files, cbs, preset, load, program, root, failing);
      assert end in t;
      assert forall e :: e in t ==> e in body || e == end;
    } else {
      var t := ExecTrace(argv, h, files, cbs, preset, load, program, root, failing);
      assert t[0] in t;
    }
  }

  /**
   * With both output handlers given, the output events of a run are exactly
   * the characters the program put, in order (none if the runtime failed).
   */
  lemma ExecTraceOutputs(argv: seq<JsString>, h: Handlers, files: seq<File>, cbs: Callbacks, preset: Option<JsString>,
                         load: Load, program: Program, root: seq<FsNode>, failing: set<JsString>)
    requires h.stdout == Given && h.stderr == Given
    ensures OutputPieces(ExecTrace(argv, h, files, cbs, preset, load, program, root, failing)) ==
      if load.Loaded? then PutChars(program.ops) else []
  {
    if load.Loaded? {
      var w := WriteEvents(files, failing);
      var o := OpsTrace(program.ops, preset, 0, h);
      var end := if program.abort.Some? then [Failure(cbs.onError, program.abort.value)]
                 else [Success(cbs.onSuccess, ReadFilesFromFS(root, true, []))];
      WriteEventsNoOutput(files, failing);
      OutputsFollowProgram(program.ops, preset, 0, h);
      assert OutputPieces([CallMain(argv)]) == [] && OutputPieces(end) == [];
      PiecesBetween(w, [CallMain(argv)], o, end);
      assert ExecTrace(argv, h, files, cbs, preset, load, program, root, failing) == w + [CallMain(argv)] + o + end;
    }
  }

  /** Only the middle part of a trace is output when the parts around it are not. */
  lemma PiecesBetween(w: seq<Event>, call: seq<Event>, o: seq<Event>, end: seq<Event>)
    requires OutputPieces(w) == [] && OutputPieces(call) == [] && OutputPieces(end) == []
    ensures OutputPieces(w + call + o + end) == OutputPieces(o)
  {
    OutputPiecesAppend(w, call);
    OutputPiecesAppend(w + call, o);
    OutputPiecesAppend(w + call + o, end);
  }

  /** `filesPostRun || files`: the post-run files when they were read, else the input files. */
  function FinishFiles(load: Load, program: Program, root: seq<FsNode>, files: seq<File>): (r: seq<File>)
    ensures load.Loaded? && program.abort.None? ==> r == ReadFilesFromFS(root, true, [])
    ensures !(load.Loaded? && program.abort.None?) ==> r == files
  {
    var post := FilesPostRun(load, program, root);
    if post.Some? then post.value else files
  }

  /**
   * `run`: the shared execution, then `onFinish` exactly once, last, with
   * the post-run files if they were read and the input files otherwise.
   */
  method Run(argv: seq<JsString>, h: Handlers, filesArg: FilesArg, onFinish: Callback, onError: Callback, onSuccess: Callback,
             preset: Preset, load: Load, program: Program, root: seq<FsNode>, failing: set<JsString>)
    returns (trace: seq<Event>, ttyOut: seq<int>, ttyErr: seq<int>)
    ensures |trace| >= 1 && forall i :: 0 <= i < |trace| - 1 ==> !trace[i].Finish?
    ensures trace[|trace| - 1] ==
      Finish(OrDefault(onFinish, NoOp), Files(FinishFiles(load, program, root, FilesOrEmpty(filesArg))))
    ensures trace[..|trace| - 1] ==
      ExecTrace(argv, h, FilesOrEmpty(filesArg), WithDefaults(onFinish, onError, onSuccess), NormalisePreset(preset), load, program, root, failing)
  {
    var files := FilesOrEmpty(filesArg);
    var cbs := WithDefaults(onFinish, onError, onSuccess);
    var pre, filesPostRun;
    pre, filesPostRun, ttyOut, ttyErr := Execute(argv, h, files, cbs, preset, load, program, root, failing);
    ExecTraceOutcome(argv, h, files, cbs, NormalisePreset(preset), load, program, root, failing);
    var finishFiles := if filesPostRun.Some? then filesPostRun.value else files;
    trace := pre + [Finish(cbs.onFinish, Files(finishFiles))];
    assert trace[..|trace| - 1] == pre;
    assert forall i :: 0 <= i < |trace| - 1 ==> trace[i] in pre;
  }

  /**
   * How the runtime comes up: the runtime factory settles, with the module
   * loaded or with an error, or `WebAssembly.instantiate` inside the
   * `instantiateWasm` hook rejects.
   */
  datatype Startup = Settles(load: Load) | InstantiateRejects(reason: JsString)

  /**
   * `run` as written, whole. The instantiation promise in the hook has no
   * rejection handler, so when it rejects the runtime never becomes ready
   * and the run stops before writing any file and without any callback;
   * otherwise it is the shared execution followed by `onFinish`.
   */
  function RunTraceAsWritten(argv: seq<JsString>, h: Handlers, files: seq<File>, cbs: Callbacks, preset: Option<JsString>,
                             startup: Startup, program: Program, root: seq<FsNode>, failing: set<JsString>): seq<Event>
  {
    match startup
    case InstantiateRejects(_) => []
    case Settles(load) =>
      ExecTrace(argv, h, files, cbs, preset, load, program, root, failing) +
        [Finish(cbs.onFinish, Files(FinishFiles(load, program, root, files)))]
  }

  /**
   * As written, a rejected instantiation reaches none of `onError`,
   * `onSuccess` and `onFinish`, and a caller waiting for `onFinish` waits
   * forever. Taken as a failed load, which is what `run` does once the
   * rejection is passed on, the same reason reaches `onError` and the run
   * finishes with the input files.
   */
  lemma {:induction false} InstantiateRejectionNeverFinishes(argv: seq<JsString>, h: Handlers, files: seq<File>, cbs: Callbacks,
                                                             preset: Option<JsString>, reason: JsString, program: Program,
                                                             root: seq<FsNode>, failing: set<JsString>)
    ensures forall e :: e in RunTraceAsWritten(argv, h, files, cbs, preset, InstantiateRejects(reason), program, root, failing) ==>
      !e.Finish? && !e.Failure? && !e.Success?
    ensures RunTraceAsWritten(argv, h, files, cbs, preset, Settles(LoadFails(reason)), program, root, failing) ==
      [Failure(cbs.onError, reason), Finish(cbs.onFinish, Files(files))]
  {
    assert FinishFiles(LoadFails(reason), program, root, files) == files;
  }

  /** Feed the output events of a trace, in order, into fresh capture buffers. */
  method CaptureOutputs(trace: seq<Event>) returns (result: HeadlessResult)
    ensures result == Captured(OutputPieces(trace))
  {
    var capture := new Capture();
    var i := 0;
    while i < |trace|
      invariant 0 <= i <= |trace| && capture.Valid()
      invariant capture.log + OutputPieces(trace[i..]) == OutputPieces(trace)
    {
      assert trace[i..][1..] == trace[i + 1..];
      var e := trace[i];
      if e.Output? {
        ConcatAssoc(capture.log, [Piece(e.stream, FromCharCode(e.val))], OutputPieces(trace[i + 1..]));
        capture.AppendCode(e.stream, e.val);
      }
      i := i + 1;
    }
    assert trace[i..] == [];
    assert capture.log + [] == capture.log;
    result := HeadlessResult(capture.output, capture.stdout, capture.stderr);
  }

  /**
   * `runHeadless`: a run whose stdout and stderr characters are captured;
   * `onFinish` gets `output` (both streams in call order) and the two
   * separate streams. `ReadStdin` reads with no preset go to a stdin stub.
   */
  method RunHeadless(argv: seq<JsString>, filesArg: FilesArg, onFinish: Callback, onError: Callback, onSuccess: Callback,
                     preset: Preset, load: Load, program: Program, root: seq<FsNode>, failing: set<JsString>)
    returns (trace: seq<Event>, result: HeadlessResult)
    ensures result == Captured(if load.Loaded? then PutChars(program.ops) else [])
    ensures |trace| >= 1 && trace[|trace| - 1] == Finish(OrDefault(onFinish, NoOp), Outputs(result))
    ensures forall i :: 0 <= i < |trace| - 1 ==> !trace[i].Finish?
  {
    var h := Handlers(Given, Given, Given);
    var files := FilesOrEmpty(filesArg);
    // the wrapper handed to `run` as onFinish is a function, so only onError and onSuccess get defaults here
    var cbs := WithDefaults(Fn(NoOp), onError, onSuccess);
    var pre, _, _, _ := Execute(argv, h, files, cbs, preset, load, program, root, failing);
    ExecTraceOutputs(argv, h, files, cbs, NormalisePreset(preset), load, program, root, failing);
    ExecTraceOutcome(argv, h, files, cbs, NormalisePreset(preset), load, program, root, failing);
    result := CaptureOutputs(pre);
    trace := pre + [Finish(OrDefault(onFinish, NoOp), Outputs(result))];
    assert forall i :: 0 <= i < |trace| - 1 ==> trace[i] in pre;
  }

  /** The global the current runtime loader looks up: `"EmscrJSR_" + programName`. */
  function RuntimeGlobal(programName: JsString): (r: JsString)
    ensures |r| == 9 + |programName| && r[9..] == programName
  {
    Lit("EmscrJSR_") + programName
  }
}
