/**
 * What the Emscripten and Wasmer runnables have in common: the file records
 * passed in and out of a run, the filling of missing callbacks with
 * defaults, the normalisation of a preset stdin text, the reader that
 * replays a preset, and the capture of output in headless runs.
 */
module Runnables {
  import opened JsText

  /** A file's contents: a `Uint8Array` of bytes, or anything else. */
  datatype Bytes = Uint8Array(data: seq<int>) | NotBytes

  /** A file record `{name, timestamp, bytes}`. */
  datatype File = File(name: JsString, timestamp: int, bytes: Bytes)

  /** The `files` argument: an array of file records, or some other value. */
  datatype FilesArg = FileArray(files: seq<File>) | NotAnArray

  /** `if(!(files instanceof Array)) files = []` */
  function FilesOrEmpty(arg: FilesArg): (files: seq<File>)
    ensures arg.FileArray? ==> files == arg.files
    ensures arg.NotAnArray? ==> files == []
  {
    if arg.FileArray? then arg.files else []
  }

  /** What a callback call reaches: a caller's function or one of the defaults. */
  datatype Target = User(id: nat) | NoOp | ConsoleError

  /** A callback argument: a function, or a value whose `typeof` is not "function". */
  datatype Callback = Fn(target: Target) | NotFn

  function OrDefault(cb: Callback, default: Target): (t: Target)
    ensures cb.Fn? ==> t == cb.target
    ensures cb.NotFn? ==> t == default
  {
    if cb.Fn? then cb.target else default
  }

  /** The three completion callbacks after the defaults are filled in. */
  datatype Callbacks = Callbacks(onFinish: Target, onError: Target, onSuccess: Target)

  /**
   * Missing callbacks get defaults: `onFinish` and `onSuccess` do nothing,
   * `onError` logs the error.
   */
  function WithDefaults(onFinish: Callback, onError: Callback, onSuccess: Callback): (c: Callbacks)
    ensures onFinish.Fn? ==> c.onFinish == onFinish.target
    ensures onError.Fn? ==> c.onError == onError.target
    ensures onSuccess.Fn? ==> c.onSuccess == onSuccess.target
    ensures onFinish.NotFn? ==> c.onFinish == NoOp
    ensures onError.NotFn? ==> c.onError == ConsoleError
    ensures onSuccess.NotFn? ==> c.onSuccess == NoOp
  {
    Callbacks(OrDefault(onFinish, NoOp), OrDefault(onError, ConsoleError), OrDefault(onSuccess, NoOp))
  }

  /**
   * Filling defaults a second time (the runner fills them, then the
   * runnable fills them again) changes nothing: the defaults are functions.
   */
  lemma DefaultsIdempotent(c: Callbacks)
    ensures WithDefaults(Fn(c.onFinish), Fn(c.onError), Fn(c.onSuccess)) == c
  {
  }

  /** The stdin and output handler arguments: a function, or not (then a no-op). */
  datatype Handler = Given | Missing

  /** The three I/O handler arguments (a missing one becomes a no-op). */
  datatype Handlers = Handlers(stdin: Handler, stdout: Handler, stderr: Handler)

  /** Whether the runtime starts (the Emscripten factory resolves, the Wasmer instance is created) or fails. */
  datatype Load = Loaded | LoadFails(reason: JsString)

  /**
   * The `stdinPreset` argument: absent (null or undefined), a string, or some
   * other value with its truthiness and its `toString()`.
   */
  datatype Preset = Absent | Str(s: JsString) | Other(truthy: bool, text: JsString)

  predicate Truthy(p: Preset)
  {
    match p
    case Absent => false
    case Str(s) => s != []
    case Other(truthy, _) => truthy
  }

  /** A text ends with a line feed. */
  predicate EndsWithLF(s: JsString)
  {
    |s| > 0 && s[|s| - 1] == LF
  }

  /**
   * The preset a run replays: none for a falsy argument; otherwise its
   * string form with a line feed appended unless it already ends in one.
   */
  function NormalisePreset(p: Preset): (r: Option<JsString>)
    ensures r.Some? <==> Truthy(p)
    ensures r.Some? ==> EndsWithLF(r.value)
    ensures r.Some? && p.Str? && EndsWithLF(p.s) ==> r.value == p.s
    ensures r.Some? && p.Str? && !EndsWithLF(p.s) ==> r.value == p.s + [LF]
    ensures r.Some? && p.Other? ==> r.value == p.text || r.value == p.text + [LF]
  {
    if !Truthy(p) then None
    else
      var s := if p.Str? then p.s else p.text;
      if EndsWithLF(s) then Some(s) else Some(s + [LF])
  }

  /**
   * The Emscripten preset reader: a cursor into the preset; each read returns
   * the code at the cursor and advances, and after the end every read is `null`.
   */
  class PresetReader {
    const preset: JsString
    var index: nat

    ghost predicate Valid()
      reads this
    {
      index <= |preset|
    }

    constructor (preset: JsString)
      ensures Valid() && this.preset == preset && index == 0
    {
      this.preset := preset;
      index := 0;
    }

    method Read() returns (r: Option<int>)
      requires Valid()
      modifies this
      ensures Valid()
      ensures r == PresetStep(preset, old(index)).0 && index == PresetStep(preset, old(index)).1
    {
      if index < |preset| {
        r := Some(preset[index] as int);
        index := index + 1;
      } else {
        r := None;
      }
    }
  }

  /** One preset read from cursor `index`: its result and the next cursor. */
  function PresetStep(preset: JsString, index: nat): (Option<int>, nat)
  {
    if index < |preset| then (Some(preset[index] as int), index + 1) else (None, index)
  }

  /** The results of `n` preset reads from cursor `index`. */
  function PresetReads(preset: JsString, index: nat, n: nat): seq<Option<int>>
    decreases n
  {
    if n == 0 then []
    else
      var (r, next) := PresetStep(preset, index);
      [r] + PresetReads(preset, next, n - 1)
  }

  /**
   * A fresh reader replays the preset: the first |preset| reads are its codes
   * in order, and every read after them is `null`.
   */
  lemma {:induction false} PresetReplays(preset: JsString, index: nat, n: nat)
    requires index <= |preset|
    ensures |PresetReads(preset, index, n)| == n
    ensures forall i :: 0 <= i < n ==>
      PresetReads(preset, index, n)[i] == if index + i < |preset| then Some(preset[index + i] as int) else None
    decreases n
  {
    if n > 0 {
      var (r, next) := PresetStep(preset, index);
      PresetReplays(preset, next, n - 1);
      var rest := PresetReads(preset, next, n - 1);
      assert PresetReads(preset, index, n) == [r] + rest;
      forall i | 1 <= i < n
        ensures PresetReads(preset, index, n)[i] == if index + i < |preset| then Some(preset[index + i] as int) else None
      {
        assert PresetReads(preset, index, n)[i] == rest[i - 1];
      }
    }
  }

  /** Which output stream a piece of captured output came from. */
  datatype Stream = Stdout | Stderr

  datatype Piece = Piece(stream: Stream, text: JsString)

  /** All captured text, in call order. */
  function AllText(log: seq<Piece>): JsString
  {
    if log == [] then [] else AllText(log[..|log| - 1]) + log[|log| - 1].text
  }

  /** The captured text of one stream, in call order. */
  function StreamText(log: seq<Piece>, stream: Stream): JsString
  {
    if log == [] then []
    else StreamText(log[..|log| - 1], stream) + (if log[|log| - 1].stream == stream then log[|log| - 1].text else [])
  }

  /** Nothing is lost or duplicated: the combined capture is as long as both streams together. */
  lemma {:induction false} CaptureSplits(log: seq<Piece>)
    ensures |AllText(log)| == |StreamText(log, Stdout)| + |StreamText(log, Stderr)|
    decreases |log|
  {
    if log != [] {
      CaptureSplits(log[..|log| - 1]);
    }
  }

  /** A capture with output from one stream only: the combined text is that stream's text. */
  lemma {:induction false} CaptureOneStream(log: seq<Piece>, stream: Stream)
    requires forall i :: 0 <= i < |log| ==> log[i].stream == stream
    ensures AllText(log) == StreamText(log, stream)
    decreases |log|
  {
    if log != [] {
      CaptureOneStream(log[..|log| - 1], stream);
    }
  }

  /**
   * The buffers of a headless run: `output` collects both streams in call
   * order, `stdout` and `stderr` only their own stream.
   */
  class Capture {
    var output: JsString
    var stdout: JsString
    var stderr: JsString
    ghost var log: seq<Piece>

    ghost predicate Valid()
      reads this
    {
      output == AllText(log) && stdout == StreamText(log, Stdout) && stderr == StreamText(log, Stderr)
    }

    constructor ()
      ensures Valid() && log == []
    {
      output, stdout, stderr := [], [], [];
      log := [];
    }

    /** Capture one piece of text of `stream`; returns its length (the Wasmer hooks do). */
    method Append(stream: Stream, text: JsString) returns (n: nat)
      requires Valid()
      modifies this
      ensures Valid() && log == old(log) + [Piece(stream, text)]
      ensures n == |text|
    {
      output := output + text;
      if stream == Stdout {
        stdout := stdout + text;
      } else {
        stderr := stderr + text;
      }
      log := log + [Piece(stream, text)];
      assert log[..|log| - 1] == old(log);
      n := |text|;
    }

    /** Capture one character code (the Emscripten hooks receive codes). */
    method AppendCode(stream: Stream, code: int)
      requires Valid()
      modifies this
      ensures Valid() && log == old(log) + [Piece(stream, FromCharCode(code))]
    {
      var _ := Append(stream, FromCharCode(code));
    }
  }

  /** What a headless run hands to `onFinish`. */
  datatype HeadlessResult = HeadlessResult(output: JsString, stdout: JsString, stderr: JsString)

  /** What `onFinish` receives: files, `undefined`, or the outputs of a headless run. */
  datatype FinishArg = Files(files: seq<File>) | Undefined | Outputs(result: HeadlessResult)

  /** The capture of a sequence of output pieces. */
  function Captured(log: seq<Piece>): (r: HeadlessResult)
    ensures |r.output| == |r.stdout| + |r.stderr|
  {
    CaptureSplits(log);
    HeadlessResult(AllText(log), StreamText(log, Stdout), StreamText(log, Stderr))
  }
}
