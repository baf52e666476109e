/**
 * Running a WASI program with Wasmer's in-memory file system. The WASI
 * runtime, the file system library and the program are opaque: the
 * instance is created or not, and the program is the sequence of stdin
 * reads and output writes it makes, then it returns or throws. What is
 * modelled is the glue: defaults, the preset parity reader, the device
 * hooks and their `/dev/tty` aliases, the argument list, the exit-code
 * rule, the file hand-over and the completion callbacks.
 */
module WasmerRun {
  import opened JsText
  import opened Runnables
  import opened StdinQueue

  /** Where a write goes: fd 1, fd 2, or the descriptor opened on `/dev/tty`. */
  datatype WriteFd = Fd1 | Fd2 | TtyFd

  /** One operation of the program: a read into `buffer` (on fd 0 or on `/dev/tty`) or a write of `text`. */
  datatype Op = Read(viaTty: bool, buffer: seq<int>) | Write(fd: WriteFd, text: JsString)

  /**
   * How `start` ends: it returns, or throws an error with exit code `code`
   * (None when the error has no code); `exitMessage` is the message of the
   * error `exit(code)` of the browser bindings throws in turn.
   */
  datatype Outcome = Completed | Thrown(code: Option<int>, exitMessage: JsString)

  datatype Program = Program(ops: seq<Op>, outcome: Outcome)

  /** The observable steps of a run, in order. */
  datatype Event =
    | StdinCall(buffer: seq<int>)              // the stdin handler was called with the read buffer
    | PresetRead(n: int, buffer: seq<int>)     // the preset reader returned n, leaving the buffer so
    | Output(stream: Stream, text: JsString)   // the stdout or stderr handler got a decoded buffer
    | Mkdir(path: JsString)
    | FsWrite(name: JsString, data: seq<int>)
    | WriteLogged(name: JsString)              // creating the path or writing the file threw and was logged
    | Start(args: seq<JsString>)
    | Success(target: Target, files: seq<File>)
    | Failure(target: Target, message: JsString)
    | Finish(target: Target, arg: FinishArg)

  /** The stream fd 1 and `/dev/tty` write to, and fd 2. */
  function StreamOfFd(fd: WriteFd): (s: Stream)
    ensures s == Stderr <==> fd == Fd2
  {
    if fd == Fd2 then Stderr else Stdout
  }

  function HandlerOfFd(h: Handlers, fd: WriteFd): Handler
  {
    if fd == Fd2 then h.stderr else h.stdout
  }

  /**
   * The preset reader of a run: a call counter over the normalised preset.
   * An even-numbered call copies the preset's codes into the buffer and
   * returns the preset's length; an odd-numbered call returns 0.
   */
  class PresetCounter {
    const preset: JsString
    var counter: nat

    constructor (preset: JsString)
      ensures this.preset == preset && counter == 0
    {
      this.preset := preset;
      counter := 0;
    }

    method Read(buffer: array<int>) returns (n: int)
      modifies this, buffer
      ensures n == WasmerStdinStep(old(counter), Some(Codes(preset))).result
      ensures counter == WasmerStdinStep(old(counter), Some(Codes(preset))).counter
      ensures buffer[..] == if old(counter) % 2 == 0 then CopiedInto(old(buffer[..]), Codes(preset)) else old(buffer[..])
    {
      if counter % 2 != 0 {
        counter := counter + 1;
        return 0;
      }
      CopyCodes(buffer, Codes(preset));
      counter := counter + 1;
      n := |preset|;
    }
  }

  /** One preset read on counter `counter`: the event it leaves and the next counter. */
  function PresetReadStep(preset: JsString, counter: nat, buffer: seq<int>): (Event, nat)
  {
    var r := WasmerStdinStep(counter, Some(Codes(preset)));
    (PresetRead(r.result, if counter % 2 == 0 then CopiedInto(buffer, Codes(preset)) else buffer), r.counter)
  }

  /**
   * The events of the program's operations, from preset counter `counter`:
   * reads on fd 0 and on `/dev/tty` go to the preset reader when there is a
   * preset and to the stdin handler otherwise; writes on fd 1 and on
   * `/dev/tty` go to the stdout handler, writes on fd 2 to the stderr handler.
   */
  function OpsTrace(ops: seq<Op>, preset: Option<JsString>, counter: nat, h: Handlers): seq<Event>
    decreases |ops|
  {
    if ops == [] then []
    else match ops[0]
      case Read(_, buffer) =>
        if preset.Some? then
          var (e, next) := PresetReadStep(preset.value, counter, buffer);
          [e] + OpsTrace(ops[1..], preset, next, h)
        else
          (if h.stdin == Given then [StdinCall(buffer)] else []) + OpsTrace(ops[1..], preset, counter, h)
      case Write(fd, text) =>
        (if HandlerOfFd(h, fd) == Given then [Output(StreamOfFd(fd), text)] else []) + OpsTrace(ops[1..], preset, counter, h)
  }

  lemma OpsTraceStep(ops: seq<Op>, preset: Option<JsString>, counter: nat, h: Handlers)
    requires ops != []
    ensures ops[0].Read? && preset.Some? ==>
      OpsTrace(ops, preset, counter, h) ==
        [PresetReadStep(preset.value, counter, ops[0].buffer).0] + OpsTrace(ops[1..], preset, PresetReadStep(preset.value, counter, ops[0].buffer).1, h)
    ensures ops[0].Read? && preset.None? ==>
      OpsTrace(ops, preset, counter, h) == (if h.stdin == Given then [StdinCall(ops[0].buffer)] else []) + OpsTrace(ops[1..], preset, counter, h)
    ensures ops[0].Write? ==>
      OpsTrace(ops, preset, counter, h) ==
        (if HandlerOfFd(h, ops[0].fd) == Given then [Output(StreamOfFd(ops[0].fd), ops[0].text)] else []) + OpsTrace(ops[1..], preset, counter, h)
  {
  }

  /** The program with every `/dev/tty` access replaced by the matching fd 0 read or fd 1 write. */
  function WithoutTty(ops: seq<Op>): (r: seq<Op>)
    ensures |r| == |ops|
    ensures forall i :: 0 <= i < |r| ==> !(r[i].Read? && r[i].viaTty) && !(r[i].Write? && r[i].fd == TtyFd)
  {
    if ops == [] then []
    else
      var op := match ops[0]
        case Read(_, buffer) => Read(false, buffer)
        case Write(fd, text) => Write(if fd == TtyFd then Fd1 else fd, text);
      [op] + WithoutTty(ops[1..])
  }

  /** `/dev/tty` reads through fd 0's reader and writes through fd 1's writer. */
  lemma {:induction false} TtyAliases(ops: seq<Op>, preset: Option<JsString>, counter: nat, h: Handlers)
    ensures OpsTrace(WithoutTty(ops), preset, counter, h) == OpsTrace(ops, preset, counter, h)
    decreases |ops|
  {
    if ops != [] {
      var w := WithoutTty(ops);
      assert w[1..] == WithoutTty(ops[1..]);
      OpsTraceStep(ops, preset, counter, h);
      OpsTraceStep(w, preset, counter, h);
      if ops[0].Read? && preset.Some? {
        TtyAliases(ops[1..], preset, PresetReadStep(preset.value, counter, ops[0].buffer).1, h);
      } else {
        TtyAliases(ops[1..], preset, counter, h);
      }
    }
  }

  /** A program that only reads. */
  predicate AllReads(ops: seq<Op>)
  {
    forall i :: 0 <= i < |ops| ==> ops[i].Read?
  }

  /**
   * Preset reads alternate: from an even counter, the k-th read returns the
   * preset's length and fills the buffer for even k, and returns 0 leaving
   * the buffer alone for odd k.
   */
  lemma {:induction false} PresetReadsAlternate(ops: seq<Op>, preset: JsString, counter: nat, h: Handlers)
    requires AllReads(ops) && counter % 2 == 0
    ensures |OpsTrace(ops, Some(preset), counter, h)| == |ops|
    ensures forall k :: 0 <= k < |ops| ==>
      OpsTrace(ops, Some(preset), counter, h)[k] == (if k % 2 == 0 then PresetRead(|preset|, CopiedInto(ops[k].buffer, Codes(preset)))
        else PresetRead(0, ops[k].buffer))
    decreases |ops|
  {
    if ops != [] {
      var t := OpsTrace(ops, Some(preset), counter, h);
      var first := PresetRead(|preset|, CopiedInto(ops[0].buffer, Codes(preset)));
      if |ops| == 1 {
        OpsTraceStep(ops, Some(preset), counter, h);
        assert t == [first] + OpsTrace(ops[1..], Some(preset), counter + 1, h);
      } else {
        var rest := ops[2..];
        assert AllReads(rest) by {
          forall k | 0 <= k < |rest| ensures rest[k].Read? { assert rest[k] == ops[k + 2]; }
        }
        PresetReadsAlternate(rest, preset, counter + 2, h);
        var tr := OpsTrace(rest, Some(preset), counter + 2, h);
        TwoPresetReads(ops, preset, counter, h);
        forall k | 2 <= k < |ops|
          ensures t[k] == if k % 2 == 0 then PresetRead(|preset|, CopiedInto(ops[k].buffer, Codes(preset))) else PresetRead(0, ops[k].buffer)
        {
          assert t[k] == tr[k - 2];
          assert ops[k] == rest[k - 2];
        }
      }
    }
  }

  /** From an even counter, two preset reads: the first fills its buffer, the second returns 0. */
  lemma TwoPresetReads(ops: seq<Op>, preset: JsString, counter: nat, h: Handlers)
    requires |ops| >= 2 && ops[0].Read? && ops[1].Read? && counter % 2 == 0
    ensures OpsTrace(ops, Some(preset), counter, h) ==
      [PresetRead(|preset|, CopiedInto(ops[0].buffer, Codes(preset))), PresetRead(0, ops[1].buffer)] + OpsTrace(ops[2..], Some(preset), counter + 2, h)
  {
    assert PresetReadStep(preset, counter, ops[0].buffer) == (PresetRead(|preset|, CopiedInto(ops[0].buffer, Codes(preset))), counter + 1) by {
      assert WasmerStdinStep(counter, Some(Codes(preset))) == CountedReply(|preset|, counter + 1, true);
    }
    assert PresetReadStep(preset, counter + 1, ops[1].buffer) == (PresetRead(0, ops[1].buffer), counter + 2) by {
      assert WasmerStdinStep(counter + 1, Some(Codes(preset))) == CountedReply(0, counter + 2, false);
    }
    OpsTraceStep(ops, Some(preset), counter, h);
    assert ops[1..][1..] == ops[2..];
    OpsTraceStep(ops[1..], Some(preset), counter + 1, h);
  }

  /** The text the program writes, with its streams, in order. */
  function Writes(ops: seq<Op>): seq<Piece>
  {
    if ops == [] then []
    else (if ops[0].Write? then [Piece(StreamOfFd(ops[0].fd), ops[0].text)] else []) + Writes(ops[1..])
  }

  /** The output events of a trace as captured text pieces. */
  function OutputPieces(trace: seq<Event>): seq<Piece>
  {
    if trace == [] then []
    else (if trace[0].Output? then [Piece(trace[0].stream, trace[0].text)] else []) + OutputPieces(trace[1..])
  }

  lemma {:induction false} OutputPiecesAppend(a: seq<Event>, b: seq<Event>)
    ensures OutputPieces(a + b) == OutputPieces(a) + OutputPieces(b)
    decreases |a|
  {
    if a != [] {
      assert (a + b)[1..] == a[1..] + b;
      OutputPiecesAppend(a[1..], b);
    } else {
      assert a + b == b;
    }
  }

  /** With both output handlers given, every written text reaches its stream, in order. */
  lemma {:induction false} OutputsFollowProgram(ops: seq<Op>, preset: Option<JsString>, counter: nat, h: Handlers)
    requires h.stdout == Given && h.stderr == Given
    ensures OutputPieces(OpsTrace(ops, preset, counter, h)) == Writes(ops)
    decreases |ops|
  {
    if ops != [] {
      OpsTraceStep(ops, preset, counter, h);
      var next := if ops[0].Read? && preset.Some? then PresetReadStep(preset.value, counter, ops[0].buffer).1 else counter;
      OutputsFollowProgram(ops[1..], preset, next, h);
      var head := if ops[0].Read? then
          (if preset.Some? then [PresetReadStep(preset.value, counter, ops[0].buffer).0]
           else if h.stdin == Given then [StdinCall(ops[0].buffer)] else [])
        else [Output(StreamOfFd(ops[0].fd), ops[0].text)];
      OutputPiecesAppend(head, OpsTrace(ops[1..], preset, next, h));
    }
  }

  /** A write hook: forward the decoded buffer to the handler (when given) and return its length. */
  method WriteHook(fd: WriteFd, text: JsString, h: Handlers) returns (n: nat, events: seq<Event>)
    ensures n == |text|
    ensures events == if HandlerOfFd(h, fd) == Given then [Output(StreamOfFd(fd), text)] else []
  {
    events := if HandlerOfFd(h, fd) == Given then [Output(StreamOfFd(fd), text)] else [];
    n := |text|;
  }

  /** A preset read into a fresh buffer holding `contents`: the event it leaves, and the counter it advances. */
  method PresetReadOp(reader: PresetCounter, contents: seq<int>) returns (e: Event)
    modifies reader
    ensures (e, reader.counter) == PresetReadStep(reader.preset, old(reader.counter), contents)
  {
    var buffer := new int[|contents|](k requires 0 <= k < |contents| => contents[k]);
    assert buffer[..] == contents;
    var n := reader.Read(buffer);
    e := PresetRead(n, buffer[..]);
  }

  /** The program's operations against the installed fd hooks. */
  method RunOps(ops: seq<Op>, preset: Option<JsString>, h: Handlers) returns (events: seq<Event>)
    ensures events == OpsTrace(ops, preset, 0, h)
  {
    var reader := new PresetCounter(if preset.Some? then preset.value else []);
    events := [];
    var i := 0;
    while i < |ops|
      invariant 0 <= i <= |ops|
      invariant reader.preset == if preset.Some? then preset.value else []
      invariant events + OpsTrace(ops[i..], preset, reader.counter, h) == OpsTrace(ops, preset, 0, h)
      decreases |ops| - i
    {
      OpsTraceStep(ops[i..], preset, reader.counter, h);
      assert ops[i..][1..] == ops[i + 1..];
      ghost var rest := OpsTrace(ops[i + 1..], preset, reader.counter, h);
      match ops[i] {
        case Read(_, contents) =>
          if preset.Some? {
            var e := PresetReadOp(reader, contents);
            ConcatAssoc(events, [e], OpsTrace(ops[i + 1..], preset, reader.counter, h));
            events := events + [e];
          } else if h.stdin == Given {
            ConcatAssoc(events, [StdinCall(contents)], rest);
            events := events + [StdinCall(contents)];
          }
        case Write(fd, text) =>
          var _, written := WriteHook(fd, text, h);
          ConcatAssoc(events, written, rest);
          events := events + written;
      }
      i := i + 1;
    }
  }

  /** `file.name.split("/").slice(0, -1).join("/")`: the name without its last segment. */
  function Parent(name: JsString): JsString
  {
    var parts := Split(name, SLASH);
    Join(parts[..|parts| - 1], SLASH)
  }

  /** The last `/`-segment of a name. */
  function BaseName(name: JsString): (r: JsString)
    ensures SLASH !in r
  {
    var parts := Split(name, SLASH);
    parts[|parts| - 1]
  }

  lemma {:induction false} JoinSnoc(parts: seq<JsString>, x: JsString, sep: Unit)
    requires |parts| >= 1
    ensures Join(parts + [x], sep) == Join(parts, sep) + [sep] + x
    decreases |parts|
  {
    if |parts| == 1 {
      assert (parts + [x])[1..] == [x];
    } else {
      assert (parts + [x])[1..] == parts[1..] + [x];
      JoinSnoc(parts[1..], x, sep);
    }
  }

  /**
   * A name with a `/` is its parent path, a `/` and its base name; a name
   * without one has the empty parent path.
   */
  lemma ParentRoundTrip(name: JsString)
    ensures SLASH in name ==> Parent(name) + [SLASH] + BaseName(name) == name
    ensures SLASH !in name ==> Parent(name) == [] && BaseName(name) == name
  {
    var parts := Split(name, SLASH);
    SplitCount(name, SLASH);
    JoinSplit(name, SLASH);
    if SLASH in name {
      assert parts == parts[..|parts| - 1] + [parts[|parts| - 1]];
      JoinSnoc(parts[..|parts| - 1], parts[|parts| - 1], SLASH);
    }
  }

  /** The FS events of writing `files`: the parent path, then the file, for each `Uint8Array` file. */
  function WriteEvents(files: seq<File>, failing: set<JsString>): seq<Event>
  {
    if files == [] then []
    else
      var f := files[|files| - 1];
      WriteEvents(files[..|files| - 1], failing) +
        (if !f.bytes.Uint8Array? then []
         else if f.name in failing then [WriteLogged(f.name)]
         else [Mkdir(Parent(f.name)), FsWrite(f.name, f.bytes.data)])
  }

  /** Every file write is preceded by the creation of its parent path. */
  lemma {:induction false} WritesFollowMkdir(files: seq<File>, failing: set<JsString>)
    ensures forall k :: 0 <= k < |WriteEvents(files, failing)| && WriteEvents(files, failing)[k].FsWrite? ==>
      k >= 1 && WriteEvents(files, failing)[k - 1] == Mkdir(Parent(WriteEvents(files, failing)[k].name))
    decreases |files|
  {
    if files != [] {
      var init := files[..|files| - 1];
      var f := files[|files| - 1];
      WritesFollowMkdir(init, failing);
      var prev := WriteEvents(init, failing);
      var tail := if !f.bytes.Uint8Array? then []
                  else if f.name in failing then [WriteLogged(f.name)]
                  else [Mkdir(Parent(f.name)), FsWrite(f.name, f.bytes.data)];
      var all := WriteEvents(files, failing);
      assert all == prev + tail;
      forall k | 0 <= k < |all| && all[k].FsWrite?
        ensures k >= 1 && all[k - 1] == Mkdir(Parent(all[k].name))
      {
        if k < |prev| {
          assert all[k] == prev[k] && all[k - 1] == prev[k - 1];
        } else {
          assert all[k] == tail[k - |prev|];
          assert k - |prev| == 1 && all[k - 1] == tail[0];
        }
      }
    }
  }

  /**
   * `_writeFilesToFS`: for every `Uint8Array` file create the parent path
   * and write the file; an error (its name in `failing`) is logged and the
   * loop goes on.
   */
  method WriteFilesToFS(files: seq<File>, failing: set<JsString>) returns (events: seq<Event>)
    ensures events == WriteEvents(files, failing)
  {
    events := [];
    var i := 0;
    while i < |files|
      invariant 0 <= i <= |files|
      invariant events == WriteEvents(files[..i], failing)
    {
      var f := files[i];
      assert files[..i + 1][..i] == files[..i];
      if f.bytes.Uint8Array? {
        if f.name in failing {
          events := events + [WriteLogged(f.name)];
        } else {
          events := events + [Mkdir(Parent(f.name)), FsWrite(f.name, f.bytes.data)];
        }
      }
      i := i + 1;
    }
    assert files[..|files|] == files;
  }

  /** The device files that are never handed back. */
  function Blacklist(): seq<JsString>
  {
    [Lit("/dev/stdin"), Lit("/dev/stdout"), Lit("/dev/stderr"), Lit("/dev/tty")]
  }

  /**
   * `_readFilesFromFS`: every entry of the file system dump except the
   * device files, in order, stamped with `now` and encoded to bytes.
   */
  function ReadFilesFromFS(entries: seq<(JsString, JsString)>, now: int): (files: seq<File>)
    ensures |files| <= |entries|
    ensures forall f :: f in files ==> f.name !in Blacklist() && f.timestamp == now && f.bytes.Uint8Array?
    ensures forall e :: e in entries && e.0 !in Blacklist() ==> File(e.0, now, Uint8Array(Codes(e.1))) in files
  {
    if entries == [] then []
    else
      var e := entries[|entries| - 1];
      ReadFilesFromFS(entries[..|entries| - 1], now) +
        (if e.0 in Blacklist() then [] else [File(e.0, now, Uint8Array(Codes(e.1)))])
  }

  /** `start` ending counts as success when it returns or throws with exit code 0. */
  predicate Succeeds(outcome: Outcome)
  {
    outcome.Completed? || outcome.code == Some(0)
  }

  /** The files read after the run, when the run got that far. */
  function FilesPostRun(load: Load, program: Program, entries: seq<(JsString, JsString)>, now: int): Option<seq<File>>
  {
    if load.Loaded? && Succeeds(program.outcome) then Some(ReadFilesFromFS(entries, now)) else None
  }

  /**
   * The whole run with the instantiation failure handled: the files are
   * written before instantiation; then either the failure is reported, or
   * the files are written again, `start` runs with `[programName, ...argv]`,
   * and success or the error message is reported; `onFinish` comes last
   * with `filesPostRun || files`.
   */
  function RunTrace(programName: JsString, argv: seq<JsString>, h: Handlers, files: seq<File>, cbs: Callbacks, preset: Option<JsString>,
                    load: Load, program: Program, entries: seq<(JsString, JsString)>, now: int, failing: set<JsString>): seq<Event>
  {
    var post := FilesPostRun(load, program, entries, now);
    var finish := Finish(cbs.onFinish, Files(if post.Some? then post.value else files));
    WriteEvents(files, failing) +
      (if load.LoadFails? then [Failure(cbs.onError, load.reason)]
       else
         WriteEvents(files, failing) + [Start([programName] + argv)] + OpsTrace(program.ops, preset, 0, h) +
           (if Succeeds(program.outcome) then [Success(cbs.onSuccess, ReadFilesFromFS(entries, now))]
            else [Failure(cbs.onError, program.outcome.exitMessage)])) +
      [finish]
  }

  /**
   * The run as written: the instance is created in a promise chain with no
   * rejection handler, so when instantiation fails neither `onError` nor
   * `onFinish` is ever called.
   */
  function RunTraceAsWritten(programName: JsString, argv: seq<JsString>, h: Handlers, files: seq<File>, cbs: Callbacks, preset: Option<JsString>,
                             load: Load, program: Program, entries: seq<(JsString, JsString)>, now: int, failing: set<JsString>): (t: seq<Event>)
    ensures load.Loaded? ==> t == RunTrace(programName, argv, h, files, cbs, preset, load, program, entries, now, failing)
  {
    if load.LoadFails? then WriteEvents(files, failing)
    else RunTrace(programName, argv, h, files, cbs, preset, load, program, entries, now, failing)
  }

  lemma {:induction false} WriteEventsNoCallbacks(files: seq<File>, failing: set<JsString>)
    ensures forall e :: e in WriteEvents(files, failing) ==> e.Mkdir? || e.FsWrite? || e.WriteLogged?
    decreases |files|
  {
    if files != [] {
      WriteEventsNoCallbacks(files[..|files| - 1], failing);
    }
  }

  lemma {:induction false} WriteEventsNoOutput(files: seq<File>, failing: set<JsString>)
    ensures OutputPieces(WriteEvents(files, failing)) == []
    decreases |files|
  {
    if files != [] {
      WriteEventsNoOutput(files[..|files| - 1], failing);
      var f := files[|files| - 1];
      var last := if !f.bytes.Uint8Array? then [] else if f.name in failing then [WriteLogged(f.name)]
                  else [Mkdir(Parent(f.name)), FsWrite(f.name, f.bytes.data)];
      if |last| == 2 {
        assert last[1..][1..] == [];
        assert OutputPieces(last[1..]) == [];
      }
      OutputPiecesAppend(WriteEvents(files[..|files| - 1], failing), last);
    }
  }

  /** As written, a failed instantiation never reaches `onError` or `onFinish`. */
  lemma RejectionNeverFinishes(programName: JsString, argv: seq<JsString>, h: Handlers, files: seq<File>, cbs: Callbacks, preset: Option<JsString>,
                               reason: JsString, program: Program, entries: seq<(JsString, JsString)>, now: int, failing: set<JsString>)
    ensures var t := RunTraceAsWritten(programName, argv, h, files, cbs, preset, LoadFails(reason), program, entries, now, failing);
      forall e :: e in t ==> !e.Finish? && !e.Failure?
    ensures var t := RunTrace(programName, argv, h, files, cbs, preset, LoadFails(reason), program, entries, now, failing);
      t[|t| - 2] == Failure(cbs.onError, reason) && t[|t| - 1] == Finish(cbs.onFinish, Files(files))
  {
    WriteEventsNoCallbacks(files, failing);
  }

  /** The program's operations only ever produce I/O events. */
  lemma {:induction false} OpsTraceOnlyIO(ops: seq<Op>, preset: Option<JsString>, counter: nat, h: Handlers)
    ensures forall e :: e in OpsTrace(ops, preset, counter, h) ==> e.StdinCall? || e.PresetRead? || e.Output?
    decreases |ops|
  {
    if ops != [] {
      OpsTraceStep(ops, preset, counter, h);
      if ops[0].Read? && preset.Some? {
        OpsTraceOnlyIO(ops[1..], preset, PresetReadStep(preset.value, counter, ops[0].buffer).1, h);
      } else {
        OpsTraceOnlyIO(ops[1..], preset, counter, h);
      }
    }
  }

  /**
   * A run calls `onFinish` exactly once, last; before it, exactly one of
   * `onSuccess` and `onError`, `onSuccess` exactly when the instance was
   * created and `start` returned or exited with code 0.
   */
  lemma RunTraceOutcome(programName: JsString, argv: seq<JsString>, h: Handlers, files: seq<File>, cbs: Callbacks, preset: Option<JsString>,
                        load: Load, program: Program, entries: seq<(JsString, JsString)>, now: int, failing: set<JsString>)
    ensures var t := RunTrace(programName, argv, h, files, cbs, preset, load, program, entries, now, failing);
      |t| >= 2 && t[|t| - 1].Finish? && (forall i :: 0 <= i < |t| - 1 ==> !t[i].Finish?) &&
      (t[|t| - 2].Success? <==> load.Loaded? && Succeeds(program.outcome)) &&
      (t[|t| - 2].Failure? <==> !(load.Loaded? && Succeeds(program.outcome))) &&
      (forall i :: 0 <= i < |t| - 2 ==> !t[i].Success? && !t[i].Failure?)
  {
    WriteEventsNoCallbacks(files, failing);
    OpsTraceOnlyIO(program.ops, preset, 0, h);
    var w := WriteEvents(files, failing);
    var body := if load.LoadFails? then w else w + w + [Start([programName] + argv)] + OpsTrace(program.ops, preset, 0, h);
    var post := FilesPostRun(load, program, entries, now);
    var fin := Finish(cbs.onFinish, Files(if post.Some? then post.value else files));
    var end := if load.LoadFails? then Failure(cbs.onError, load.reason)
               else if Succeeds(program.outcome) then Success(cbs.onSuccess, ReadFilesFromFS(entries, now))
               else Failure(cbs.onError, program.outcome.exitMessage);
    RunTraceParts(programName, argv, h, files, cbs, preset, load, program, entries, now, failing);
    OutcomeLast(body, end, fin);
  }

  /** A run's trace is its callback-free body, its outcome callback and `onFinish`. */
  lemma RunTraceParts(programName: JsString, argv: seq<JsString>, h: Handlers, files: seq<File>, cbs: Callbacks, preset: Option<JsString>,
                      load: Load, program: Program, entries: seq<(JsString, JsString)>, now: int, failing: set<JsString>)
    ensures var w := WriteEvents(files, failing);
      var post := FilesPostRun(load, program, entries, now);
      RunTrace(programName, argv, h, files, cbs, preset, load, program, entries, now, failing) ==
        (if load.LoadFails? then w else w + w + [Start([programName] + argv)] + OpsTrace(program.ops, preset, 0, h)) +
        [if load.LoadFails? then Failure(cbs.onError, load.reason)
         else if Succeeds(program.outcome) then Success(cbs.onSuccess, ReadFilesFromFS(entries, now))
         else Failure(cbs.onError, program.outcome.exitMessage)] +
        [Finish(cbs.onFinish, Files(if post.Some? then post.value else files))]
  {
    var w := WriteEvents(files, failing);
    if !load.LoadFails? {
      var o := OpsTrace(program.ops, preset, 0, h);
      var end := if Succeeds(program.outcome) then [Success(cbs.onSuccess, ReadFilesFromFS(entries, now))]
                 else [Failure(cbs.onError, program.outcome.exitMessage)];
      assert w + (w + [Start([programName] + argv)] + o + end) == w + w + [Start([programName] + argv)] + o + end;
    }
  }

  /** Callback-free events, then one outcome callback, then `onFinish`: each callback comes exactly once, in that order. */
  lemma OutcomeLast(body: seq<Event>, end: Event, fin: Event)
    requires forall e :: e in body ==> !e.Finish? && !e.Success? && !e.Failure?
    requires end.Success? || end.Failure?
    requires fin.Finish?
    ensures var t := body + [end] + [fin];
      |t| >= 2 && t[|t| - 1] == fin && t[|t| - 2] == end &&
      (forall i :: 0 <= i < |t| - 1 ==> !t[i].Finish?) &&
      (forall i :: 0 <= i < |t| - 2 ==> !t[i].Success? && !t[i].Failure?)
  {
    var t := body + [end] + [fin];
    forall i | 0 <= i < |t| - 2 ensures t[i] in body {
      assert t[i] == body[i];
    }
  }

  /** With both output handlers given, the output events of a run are exactly the texts the program wrote. */
  lemma RunTraceOutputs(programName: JsString, argv: seq<JsString>, h: Handlers, files: seq<File>, cbs: Callbacks, preset: Option<JsString>,
                        load: Load, program: Program, entries: seq<(JsString, JsString)>, now: int, failing: set<JsString>)
    requires h.stdout == Given && h.stderr == Given
    ensures OutputPieces(RunTrace(programName, argv, h, files, cbs, preset, load, program, entries, now, failing)) ==
      if load.Loaded? then Writes(program.ops) else []
  {
    var w := WriteEvents(files, failing);
    var post := FilesPostRun(load, program, entries, now);
    var fin := Finish(cbs.onFinish, Files(if post.Some? then post.value else files));
    var end := if load.LoadFails? then Failure(cbs.onError, load.reason)
               else if Succeeds(program.outcome) then Success(cbs.onSuccess, ReadFilesFromFS(entries, now))
               else Failure(cbs.onError, program.outcome.exitMessage);
    WriteEventsNoOutput(files, failing);
    RunTraceParts(programName, argv, h, files, cbs, preset, load, program, entries, now, failing);
    if load.LoadFails? {
      SkeletonPieces(w, [], end, fin);
      assert w + [] == w;
    } else {
      var o := OpsTrace(program.ops, preset, 0, h);
      var start := [Start([programName] + argv)];
      OutputsFollowProgram(program.ops, preset, 0, h);
      assert OutputPieces(start) == [];
      OutputPiecesAppend(w, w);
      OutputPiecesAppend(w + w, start);
      SkeletonPieces(w + w + start, o, end, fin);
    }
  }

  /** The output of a run's skeleton is the output of its middle part, when nothing else in it is output. */
  lemma SkeletonPieces(before: seq<Event>, o: seq<Event>, end: Event, fin: Event)
    requires OutputPieces(before) == [] && !end.Output? && !fin.Output?
    ensures OutputPieces(before + o + [end] + [fin]) == OutputPieces(o)
  {
    var none: seq<Event> := [];
    assert OutputPieces(none) == [];
    assert [end][1..] == none && [fin][1..] == none;
    assert OutputPieces([end]) == [];
    assert OutputPieces([fin]) == [];
    OutputPiecesAppend(before, o);
    OutputPiecesAppend(before + o, [end]);
    OutputPiecesAppend(before + o + [end], [fin]);
  }

  /**
   * `run`: defaults, the file writes before and after instantiation, the
   * program against the hooks, the success or error callback, then
   * `onFinish(filesPostRun || files)`.
   */
  method Run(programName: JsString, argv: seq<JsString>, h: Handlers, filesArg: FilesArg,
             onFinish: Callback, onError: Callback, onSuccess: Callback, preset: Preset,
             load: Load, program: Program, entries: seq<(JsString, JsString)>, now: int, failing: set<JsString>)
    returns (trace: seq<Event>)
    ensures trace == RunTrace(programName, argv, h, FilesOrEmpty(filesArg), WithDefaults(onFinish, onError, onSuccess),
                              NormalisePreset(preset), load, program, entries, now, failing)
  {
    var files := FilesOrEmpty(filesArg);
    var cbs := WithDefaults(onFinish, onError, onSuccess);
    var presetText := NormalisePreset(preset);
    trace := WriteFilesToFS(files, failing);
    var filesPostRun: Option<seq<File>> := None;
    if load.LoadFails? {
      trace := trace + [Failure(cbs.onError, load.reason)];
    } else {
      var again := WriteFilesToFS(files, failing);
      var opsEvents := RunOps(program.ops, presetText, h);
      var body := again + [Start([programName] + argv)] + opsEvents;
      if Succeeds(program.outcome) {
        filesPostRun := Some(ReadFilesFromFS(entries, now));
        body := body + [Success(cbs.onSuccess, filesPostRun.value)];
      } else {
        body := body + [Failure(cbs.onError, program.outcome.exitMessage)];
      }
      trace := trace + body;
    }
    trace := trace + [Finish(cbs.onFinish, Files(if filesPostRun.Some? then filesPostRun.value else files))];
  }

  /** Feed the output events of a trace, in order, into fresh capture buffers. */
  method CaptureOutputs(trace: seq<Event>) returns (result: HeadlessResult)
    ensures result == Captured(OutputPieces(trace))
  {
    var capture := new Capture();
    var i := 0;
    while i < |trace|
      invariant 0 <= i <= |trace| && capture.Valid()
      invariant capture.log + OutputPieces(trace[i..]) == OutputPieces(trace)
    {
      assert trace[i..][1..] == trace[i + 1..];
      var e := trace[i];
      if e.Output? {
        ConcatAssoc(capture.log, [Piece(e.stream, e.text)], OutputPieces(trace[i + 1..]));
        var _ := capture.Append(e.stream, e.text);
      }
      i := i + 1;
    }
    assert trace[i..] == [];
    assert capture.log + [] == capture.log;
    result := HeadlessResult(capture.output, capture.stdout, capture.stderr);
  }

  /**
   * `runHeadless`: a run whose written text is captured; `onFinish` gets
   * `output` (both streams in call order) and the two separate streams.
   * Reads with no preset go to a stdin stub that returns 0.
   */
  method RunHeadless(programName: JsString, argv: seq<JsString>, filesArg: FilesArg,
                     onFinish: Callback, onError: Callback, onSuccess: Callback, preset: Preset,
                     load: Load, program: Program, entries: seq<(JsString, JsString)>, now: int, failing: set<JsString>)
    returns (trace: seq<Event>, result: HeadlessResult)
    ensures result == Captured(if load.Loaded? then Writes(program.ops) else [])
    ensures |trace| >= 1 && trace[|trace| - 1] == Finish(OrDefault(onFinish, NoOp), Outputs(result))
    ensures forall i :: 0 <= i < |trace| - 1 ==> !trace[i].Finish?
  {
    var h := Handlers(Given, Given, Given);
    var files := FilesOrEmpty(filesArg);
    var cbs := WithDefaults(Fn(NoOp), onError, onSuccess);
    var inner := Run(programName, argv, h, filesArg, Fn(NoOp), onError, onSuccess, preset, load, program, entries, now, failing);
    RunTraceOutputs(programName, argv, h, files, cbs, NormalisePreset(preset), load, program, entries, now, failing);
    RunTraceOutcome(programName, argv, h, files, cbs, NormalisePreset(preset), load, program, entries, now, failing);
    trace, result := ReportCaptured(inner, OrDefault(onFinish, NoOp));
  }

  /** The wrapper passed as `onFinish`: the run's own `onFinish` gets the captured outputs instead of the files. */
  method ReportCaptured(inner: seq<Event>, onFinish: Target) returns (trace: seq<Event>, result: HeadlessResult)
    requires |inner| >= 1 && forall i :: 0 <= i < |inner| - 1 ==> !inner[i].Finish?
    ensures result == Captured(OutputPieces(inner))
    ensures |trace| == |inner| && trace[|trace| - 1] == Finish(onFinish, Outputs(result))
    ensures forall i :: 0 <= i < |trace| - 1 ==> trace[i] == inner[i]
  {
    var pre := inner[..|inner| - 1];
    result := CaptureOutputs(inner);
    trace := pre + [Finish(onFinish, Outputs(result))];
  }
}
