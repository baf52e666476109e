/**
 * The first-generation Emscripten wrapper. Its run is the same execution as
 * the current runnable's (defaults, preset reader, tty hooks, file writes,
 * `callMain`, file read-back, `onSuccess`/`onError`); it differs in what
 * `onFinish` receives and in how the JavaScript runtime is located.
 */
module LegacyExecutable {
  import opened JsText
  import opened Runnables
  import opened EmscriptenRun

  /** `onFinish(filesPostRun)`: the post-run files, or `undefined` when they were never read. */
  function LegacyFinishArg(load: Load, program: Program, root: seq<FsNode>): (r: FinishArg)
    ensures r.Undefined? <==> !(load.Loaded? && program.abort.None?)
    ensures r.Files? ==> r.files == ReadFilesFromFS(root, true, [])
  {
    var post := FilesPostRun(load, program, root);
    if post.Some? then Files(post.value) else Undefined
  }

  /**
   * The two generations hand `onFinish` the same files whenever the run got
   * as far as reading them back; otherwise the first generation passes
   * `undefined` where the current one passes the input files.
   */
  lemma FinishArgsAgree(load: Load, program: Program, root: seq<FsNode>, files: seq<File>)
    ensures LegacyFinishArg(load, program, root).Files? ==>
      LegacyFinishArg(load, program, root) == Files(FinishFiles(load, program, root, files))
    ensures LegacyFinishArg(load, program, root).Undefined? ==> FinishFiles(load, program, root, files) == files
  {
  }

  /**
   * `run`: the shared execution, then `onFinish` exactly once, last, with
   * the post-run files or `undefined`.
   */
  method Run(argv: seq<JsString>, h: Handlers, filesArg: FilesArg, onFinish: Callback, onError: Callback, onSuccess: Callback,
             preset: Preset, load: Load, program: Program, root: seq<FsNode>, failing: set<JsString>)
    returns (trace: seq<Event>, ttyOut: seq<int>, ttyErr: seq<int>)
    ensures |trace| >= 1 && forall i :: 0 <= i < |trace| - 1 ==> !trace[i].Finish?
    ensures trace[|trace| - 1] == Finish(OrDefault(onFinish, NoOp), LegacyFinishArg(load, program, root))
    ensures trace[..|trace| - 1] ==
      ExecTrace(argv, h, FilesOrEmpty(filesArg), WithDefaults(onFinish, onError, onSuccess), NormalisePreset(preset), load, program, root, failing)
  {
    var files := FilesOrEmpty(filesArg);
    var cbs := WithDefaults(onFinish, onError, onSuccess);
    var pre, filesPostRun;
    pre, filesPostRun, ttyOut, ttyErr := Execute(argv, h, files, cbs, preset, load, program, root, failing);
    ExecTraceOutcome(argv, h, files, cbs, NormalisePreset(preset), load, program, root, failing);
    var arg := if filesPostRun.Some? then Files(filesPostRun.value) else Undefined;
    trace := pre + [Finish(cbs.onFinish, arg)];
    assert trace[..|trace| - 1] == pre;
    assert forall i :: 0 <= i < |trace| - 1 ==> trace[i] in pre;
  }

  /** The runtime's location: `path + "/" + programName + ".js"`, the path defaulting to "bin". */
  function RuntimeUrl(path: Option<JsString>, programName: JsString): (url: JsString)
    ensures var dir := if path.Some? then path.value else Lit("bin");
      |url| == |dir| + 1 + |programName| + 3 && url[..|dir|] == dir && url[|dir|] == SLASH &&
      url[|dir| + 1..|url| - 3] == programName && url[|url| - 3..] == Lit(".js")
  {
    var dir := if path.Some? then path.value else Lit("bin");
    dir + [SLASH] + programName + Lit(".js")
  }

  /** The file name of a runtime URL: the text between the path's "/" and the ".js" suffix. */
  function ProgramOfUrl(dirLength: nat, url: JsString): (name: Option<JsString>)
    ensures name.Some? ==> |name.value| + dirLength + 4 == |url|
  {
    if dirLength + 4 <= |url| then Some(url[dirLength + 1..|url| - 3]) else None
  }

  /** The program name can be read back from the URL built for it. */
  lemma RuntimeUrlRoundTrip(path: Option<JsString>, programName: JsString)
    ensures var dir := if path.Some? then path.value else Lit("bin");
      ProgramOfUrl(|dir|, RuntimeUrl(path, programName)) == Some(programName)
  {
  }

  /** The global the first-generation loader looks up: `"EmscrJsRE_" + programName`. */
  function LegacyRuntimeGlobal(programName: JsString): (r: JsString)
    ensures |r| == 10 + |programName| && r[10..] == programName
  {
    Lit("EmscrJsRE_") + programName
  }

  /** The two generations look up different global names for every program. */
  lemma GlobalsDiffer(programName: JsString)
    ensures LegacyRuntimeGlobal(programName) != RuntimeGlobal(programName)
  {
  }
}
