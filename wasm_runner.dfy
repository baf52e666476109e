/**
 * The main-thread runner: it picks the runnable for a module type, keeps
 * every output in `outputBuffer` (the last line of which captions stdin
 * prompts) and answers the program's stdin reads with prompts.
 */
module WasmRunning {
  import opened JsText
  import opened Runnables
  import opened LineBuffering
  import opened StdinQueue

  /** The two kinds of runnable. */
  datatype Kind = EmscriptenKind | WasmerKind

  /** A dispatched run: the runnable kind and the callbacks after defaults. */
  datatype Dispatched = Dispatched(kind: Kind, cbs: Callbacks)

  const UNKNOWN_TYPE: JsString := Lit("Unknown wasm module type (can only handle emscripten or wasmer)")

  /**
   * `runCommand` / `runCommandHeadless` before the runnable takes over:
   * missing callbacks get defaults, then "emscripten" and "wasmer" select
   * their runnable and any other type throws.
   */
  function Dispatch(moduleType: JsString, onFinish: Callback, onError: Callback, onSuccess: Callback): (r: Result<Dispatched>)
    ensures r.Ok? <==> moduleType == Lit("emscripten") || moduleType == Lit("wasmer")
    ensures r.Ok? ==> (r.value.kind == EmscriptenKind <==> moduleType == Lit("emscripten"))
    ensures r.Ok? ==> r.value.cbs == WithDefaults(onFinish, onError, onSuccess)
    ensures r.Err? ==> r.error == Exception(Error, UNKNOWN_TYPE)
  {
    var cbs := WithDefaults(onFinish, onError, onSuccess);
    if moduleType == Lit("emscripten") then Ok(Dispatched(EmscriptenKind, cbs))
    else if moduleType == Lit("wasmer") then Ok(Dispatched(WasmerKind, cbs))
    else Err(Exception(Error, UNKNOWN_TYPE))
  }

  /**
   * The runnable fills in defaults again, and since the runner's callbacks
   * are all functions by then, the callbacks that reach the run are the
   * runner's own.
   */
  lemma DispatchedCallbacksReachRun(moduleType: JsString, onFinish: Callback, onError: Callback, onSuccess: Callback)
    requires Dispatch(moduleType, onFinish, onError, onSuccess).Ok?
    ensures var c := Dispatch(moduleType, onFinish, onError, onSuccess).value.cbs;
      WithDefaults(Fn(c.onFinish), Fn(c.onError), Fn(c.onSuccess)) == c
  {
    DefaultsIdempotent(Dispatch(moduleType, onFinish, onError, onSuccess).value.cbs);
  }

  /** What the runner hands to the terminal: output values, and stdin prompts with their captions. */
  datatype Call = StdoutCall(value: Chunk) | StderrCall(value: Chunk) | Prompt(caption: JsString)

  /** The carriage return and line feed an echoed answer ends with. */
  function CRLF(): JsString
  {
    [CR, LF]
  }

  class Runner {
    /** Everything written to stdout and stderr so far, and every echoed answer. */
    var outputBuffer: JsString
    /** Stdin calls made by Wasmer programs; it lives as long as the runner. */
    var wasmerCounter: nat
    /** The calls reaching the terminal, in order. */
    var calls: seq<Call>

    constructor ()
      ensures outputBuffer == [] && wasmerCounter == 0 && calls == []
    {
      outputBuffer := [];
      wasmerCounter := 0;
      calls := [];
    }

    /** The stdout and stderr handlers: buffer the value (a number as one character), then forward it. */
    method BufferOutput(err: bool, value: Chunk)
      modifies this
      ensures outputBuffer == old(outputBuffer) + ChunkText(value)
      ensures calls == old(calls) + [if err then StderrCall(value) else StdoutCall(value)]
      ensures wasmerCounter == old(wasmerCounter)
    {
      outputBuffer := outputBuffer + ChunkText(value);
      calls := calls + [if err then StderrCall(value) else StdoutCall(value)];
    }

    /** The caption of the next prompt: the last line of the output so far. */
    function Caption(): (c: JsString)
      reads this
      ensures LF !in c
    {
      LastLine(outputBuffer)
    }

    /**
     * An Emscripten stdin read. With an empty queue it prompts (captioned by
     * the last output line); a cancelled prompt returns `null`; an answer is
     * echoed with "\r\n" and its codes plus a line feed, then `null`, become
     * the queue. Then the head of the queue is taken.
     */
    method OnEmscrStdinCall(tty: Tty, answer: Option<JsString>) returns (r: Option<int>)
      modifies this, tty
      ensures var reply := EmscrStdinStep(old(tty.input), if answer.Some? then Some(Codes(answer.value + [LF])) else None);
        r == reply.result && tty.input == reply.queue
      ensures old(tty.input) != [] ==> outputBuffer == old(outputBuffer) && calls == old(calls)
      ensures old(tty.input) == [] && answer.None? ==> outputBuffer == old(outputBuffer) && calls == old(calls) + [Prompt(LastLine(old(outputBuffer)))]
      ensures old(tty.input) == [] && answer.Some? ==>
        outputBuffer == old(outputBuffer) + answer.value + CRLF() &&
        calls == old(calls) + [Prompt(LastLine(old(outputBuffer))), StdoutCall(Text(answer.value + CRLF()))]
      ensures wasmerCounter == old(wasmerCounter)
    {
      if |tty.input| == 0 {
        var caption := Caption();
        calls := calls + [Prompt(caption)];
        if answer.None? {
          return None;
        }
        BufferOutput(false, Text(answer.value + CRLF()));
        tty.input := Refilled(Codes(answer.value + [LF]));
      }
      r := tty.input[0];
      tty.input := tty.input[1..];
    }

    /**
     * A Wasmer stdin read as written. An odd-numbered call returns 0. An
     * even-numbered call prompts; a cancelled prompt returns 0 and leaves
     * the counter; an answer is echoed, and then copying it calls `forEach`
     * on a string, which is not a function: the call throws a TypeError and
     * the buffer and the counter stay as they were.
     */
    method OnWasmerStdinCallAsWritten(buffer: array<int>, answer: Option<JsString>) returns (r: Result<int>)
      modifies this
      ensures old(wasmerCounter) % 2 != 0 ==> r == Ok(0) && wasmerCounter == old(wasmerCounter) + 1 && calls == old(calls)
      ensures old(wasmerCounter) % 2 != 0 ==> outputBuffer == old(outputBuffer)
      ensures old(wasmerCounter) % 2 == 0 && answer.None? ==>
        r == Ok(0) && wasmerCounter == old(wasmerCounter) &&
        outputBuffer == old(outputBuffer) && calls == old(calls) + [Prompt(LastLine(old(outputBuffer)))]
      ensures old(wasmerCounter) % 2 == 0 && answer.Some? ==>
        r.Err? && r.error.kind == TypeError && wasmerCounter == old(wasmerCounter) &&
        outputBuffer == old(outputBuffer) + answer.value + CRLF() &&
        calls == old(calls) + [Prompt(LastLine(old(outputBuffer))), StdoutCall(Text(answer.value + CRLF()))]
    {
      if wasmerCounter % 2 != 0 {
        wasmerCounter := wasmerCounter + 1;
        return Ok(0);
      }
      var caption := Caption();
      calls := calls + [Prompt(caption)];
      if answer.None? {
        return Ok(0);
      }
      BufferOutput(false, Text(answer.value + CRLF()));
      r := Err(Exception(TypeError, Lit("input.forEach is not a function")));
    }

    /**
     * A Wasmer stdin read as intended: as above, but an answer's codes are
     * copied into the buffer, the counter advances and the answer's length
     * is returned.
     */
    method OnWasmerStdinCall(buffer: array<int>, answer: Option<JsString>) returns (r: int)
      modifies this, buffer
      ensures var reply := WasmerStdinStep(old(wasmerCounter), if answer.Some? then Some(Codes(answer.value)) else None);
        r == reply.result && wasmerCounter == reply.counter
      ensures old(wasmerCounter) % 2 == 0 && answer.Some? ==>
        buffer[..] == CopiedInto(old(buffer[..]), Codes(answer.value)) &&
        outputBuffer == old(outputBuffer) + answer.value + CRLF()
      ensures !(old(wasmerCounter) % 2 == 0 && answer.Some?) ==> buffer[..] == old(buffer[..]) && outputBuffer == old(outputBuffer)
      ensures old(wasmerCounter) % 2 != 0 ==> calls == old(calls)
      ensures old(wasmerCounter) % 2 == 0 && answer.None? ==> calls == old(calls) + [Prompt(LastLine(old(outputBuffer)))]
      ensures old(wasmerCounter) % 2 == 0 && answer.Some? ==>
        calls == old(calls) + [Prompt(LastLine(old(outputBuffer))), StdoutCall(Text(answer.value + CRLF()))]
    {
      if wasmerCounter % 2 != 0 {
        wasmerCounter := wasmerCounter + 1;
        return 0;
      }
      var caption := Caption();
      calls := calls + [Prompt(caption)];
      if answer.None? {
        return 0;
      }
      BufferOutput(false, Text(answer.value + CRLF()));
      CopyCodes(buffer, Codes(answer.value));
      wasmerCounter := wasmerCounter + 1;
      r := |answer.value|;
    }
  }

  /**
   * After an answer is echoed the caption is empty, and output written
   * after it without a line feed becomes the whole caption of the next prompt.
   */
  lemma CaptionAfterEcho(buffer: JsString, answer: JsString, later: JsString)
    requires LF !in later
    ensures LastLine(buffer + answer + CRLF()) == []
    ensures LastLine(buffer + answer + CRLF() + later) == later
  {
    var s := buffer + answer + [CR];
    assert buffer + answer + CRLF() == s + [LF];
    LastLineAfterLF(s);
    LastLineAppend(s + [LF], later);
  }

  /** A prompt's caption ignores everything up to the last line feed of the output. */
  lemma CaptionIsLastLine(before: JsString, after: JsString)
    requires LF !in after
    ensures LastLine(before + [LF] + after) == after
  {
    LastLineAfterLF(before);
    LastLineAppend(before + [LF], after);
  }
}
