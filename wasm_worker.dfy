/**
 * The background-side stdin bridges. A program's stdin read asks the
 * terminal for a line, holds the pause word and, once resumed, takes the
 * line from the shared stdin window. The wait itself is concurrency and is
 * not modelled: the terminal's part while the worker holds (`_setStdinBuffer`
 * with the line it got, then "go" in the pause word) is performed in place,
 * with the line as a parameter.
 */
module WorkerBridge {
  import opened JsText
  import opened SharedMemory
  import opened StdinQueue
  import opened WasmRunning

  /** What a read takes from the window after the terminal wrote `line` into it. */
  function Delivered(line: JsString): seq<int>
  {
    BeforeZero(Filled(line, STDIN_SLOTS))
  }

  /**
   * The current worker: a runner (for `outputBuffer`, the Wasmer counter
   * and the calls to the terminal) with the two shared arrays.
   */
  class Worker {
    const base: Runner
    const shared: SharedBuffers

    ghost predicate Valid()
      reads this, shared
    {
      shared.Valid()
    }

    constructor (shared: SharedBuffers)
      requires shared.Valid()
      ensures Valid() && this.shared == shared && fresh(base)
      ensures base.outputBuffer == [] && base.wasmerCounter == 0 && base.calls == []
    {
      base := new Runner();
      this.shared := shared;
    }

    /** Ask the terminal for a line, hold, and take what it wrote (the terminal's part done in place). */
    method AwaitLine(line: JsString) returns (codes: seq<int>)
      requires Valid()
      modifies base, shared.pause, shared.stdin
      ensures Valid()
      ensures codes == Delivered(line) && shared.stdin[..] == Filled(line, STDIN_SLOTS) && shared.pause[..] == [GO]
      ensures base.calls == old(base.calls) + [Prompt(LastLine(old(base.outputBuffer)))]
      ensures base.outputBuffer == old(base.outputBuffer) && base.wasmerCounter == old(base.wasmerCounter)
    {
      base.calls := base.calls + [Prompt(base.Caption())];
      // the terminal answers while the worker holds
      codes := shared.Exchange(line);
    }

    /**
     * An Emscripten stdin read: with an empty queue, ask for a line (the
     * caption is the last output line), append what arrived to
     * `outputBuffer`, and queue its codes and `null` — or return `null` if
     * nothing arrived. Then the head of the queue is taken.
     */
    method OnEmscrStdinCall(tty: Tty, line: JsString) returns (r: Option<int>)
      requires Valid()
      modifies base, shared.pause, shared.stdin, tty
      ensures Valid()
      ensures var reply := EmscrStdinStep(old(tty.input), Some(Delivered(line)));
        r == reply.result && tty.input == reply.queue
      ensures old(tty.input) != [] ==>
        base.outputBuffer == old(base.outputBuffer) && base.calls == old(base.calls) &&
        shared.stdin[..] == old(shared.stdin[..]) && shared.pause[..] == old(shared.pause[..])
      ensures old(tty.input) == [] ==>
        base.outputBuffer == old(base.outputBuffer) + FromCharCodes(Delivered(line)) &&
        base.calls == old(base.calls) + [Prompt(LastLine(old(base.outputBuffer)))] &&
        shared.stdin[..] == Filled(line, STDIN_SLOTS) && shared.pause[..] == [GO]
      ensures base.wasmerCounter == old(base.wasmerCounter)
    {
      if |tty.input| == 0 {
        var codes := AwaitLine(line);
        tty.input := SomeAll(codes);
        base.outputBuffer := base.outputBuffer + FromCharCodes(codes);
        if |codes| == 0 {
          return None;
        }
        tty.input := tty.input + [None];
        assert tty.input == Refilled(codes);
      }
      r := tty.input[0];
      tty.input := tty.input[1..];
    }

    /**
     * A Wasmer stdin read: an odd-numbered call returns 0; an even-numbered
     * one asks for a line, copies what arrived into the caller's buffer,
     * appends it to `outputBuffer`, advances the counter and returns its length.
     */
    method OnWasmerStdinCall(buffer: array<int>, line: JsString) returns (r: int)
      requires Valid() && buffer != shared.pause && buffer != shared.stdin
      modifies base, shared.pause, shared.stdin, buffer
      ensures Valid()
      ensures var reply := WasmerStdinStep(old(base.wasmerCounter), Some(Delivered(line)));
        r == reply.result && base.wasmerCounter == reply.counter
      ensures old(base.wasmerCounter) % 2 == 0 ==>
        buffer[..] == CopiedInto(old(buffer[..]), Delivered(line)) &&
        base.outputBuffer == old(base.outputBuffer) + FromCharCodes(Delivered(line)) &&
        base.calls == old(base.calls) + [Prompt(LastLine(old(base.outputBuffer)))] &&
        shared.stdin[..] == Filled(line, STDIN_SLOTS) && shared.pause[..] == [GO]
      ensures old(base.wasmerCounter) % 2 != 0 ==>
        buffer[..] == old(buffer[..]) && base.outputBuffer == old(base.outputBuffer) && base.calls == old(base.calls) &&
        shared.stdin[..] == old(shared.stdin[..]) && shared.pause[..] == old(shared.pause[..])
    {
      if base.wasmerCounter % 2 != 0 {
        base.wasmerCounter := base.wasmerCounter + 1;
        return 0;
      }
      r := DeliverLine(buffer, line);
    }

    /** The even-numbered Wasmer read: ask for a line and copy what arrived into the caller's buffer. */
    method DeliverLine(buffer: array<int>, line: JsString) returns (n: int)
      requires Valid() && buffer != shared.pause && buffer != shared.stdin
      modifies base, shared.pause, shared.stdin, buffer
      ensures Valid()
      ensures n == |Delivered(line)| && base.wasmerCounter == old(base.wasmerCounter) + 1
      ensures buffer[..] == CopiedInto(old(buffer[..]), Delivered(line))
      ensures base.outputBuffer == old(base.outputBuffer) + FromCharCodes(Delivered(line))
      ensures base.calls == old(base.calls) + [Prompt(LastLine(old(base.outputBuffer)))]
      ensures shared.stdin[..] == Filled(line, STDIN_SLOTS) && shared.pause[..] == [GO]
    {
      var codes := AwaitLine(line);
      CopyCodes(buffer, codes);
      base.outputBuffer := base.outputBuffer + FromCharCodes(codes);
      base.wasmerCounter := base.wasmerCounter + 1;
      n := |codes|;
    }
  }

  /**
   * Round trip through the bridge: a line without NUL of at most 1000
   * characters, asked for by an Emscripten read on an empty queue, comes
   * back as its first code, with the rest of its codes and the end marker
   * queued; an empty line ends the input with `null`.
   */
  lemma EmscrLineRoundTrip(line: JsString)
    requires NUL !in line && |line| <= STDIN_SLOTS
    ensures Delivered(line) == Codes(line)
    ensures line != [] ==>
      EmscrStdinStep([], Some(Delivered(line))) == Reply(Some(line[0] as int), Refilled(Codes(line))[1..], true)
    ensures line == [] ==> EmscrStdinStep([], Some(Delivered(line))).result == None
  {
    ReadAfterSet(line, STDIN_SLOTS);
    assert Codes(line)[..Min(|line|, STDIN_SLOTS)] == Codes(line);
  }

  /** A line longer than the window is cut to its first 1000 characters. */
  lemma LongLineTruncated(line: JsString)
    requires NUL !in line && |line| > STDIN_SLOTS
    ensures Delivered(line) == Codes(line[..STDIN_SLOTS])
  {
    ReadAfterSet(line, STDIN_SLOTS);
    assert Codes(line)[..STDIN_SLOTS] == Codes(line[..STDIN_SLOTS]);
  }
}
