/**
 * The first-generation background worker. It has the same pause word and
 * stdin window as the current one, but its stdin requests carry no
 * caption, it keeps no output buffer and it serves Emscripten programs only.
 */
module LegacyBridge {
  import opened JsText
  import opened SharedMemory
  import opened StdinQueue
  import WorkerBridge

  class LegacyWorker {
    const shared: SharedBuffers
    /** How many times the terminal was asked for a line. */
    var requests: nat

    ghost predicate Valid()
      reads this, shared
    {
      shared.Valid()
    }

    constructor (shared: SharedBuffers)
      requires shared.Valid()
      ensures Valid() && this.shared == shared && requests == 0
    {
      this.shared := shared;
      requests := 0;
    }

    /**
     * A stdin read: with an empty queue, ask the terminal (no caption), hold
     * until the line is in the window (the terminal's part done in place),
     * and queue its codes and `null`, or return `null` if nothing arrived.
     * Then the head of the queue is taken; a non-empty queue never asks.
     */
    method OnStdinCall(tty: StdinQueue.Tty, line: JsString) returns (r: Option<int>)
      requires Valid()
      modifies this, shared.pause, shared.stdin, tty
      ensures Valid()
      ensures var reply := EmscrStdinStep(old(tty.input), Some(WorkerBridge.Delivered(line)));
        r == reply.result && tty.input == reply.queue
      ensures requests == old(requests) + (if old(tty.input) == [] then 1 else 0)
      ensures old(tty.input) == [] ==> shared.pause[..] == [GO] && shared.stdin[..] == Filled(line, STDIN_SLOTS)
      ensures old(tty.input) != [] ==> shared.pause[..] == old(shared.pause[..]) && shared.stdin[..] == old(shared.stdin[..])
    {
      if |tty.input| == 0 {
        requests := requests + 1;
        // the terminal answers while the worker holds
        var codes := shared.Exchange(line);
        tty.input := SomeAll(codes);
        if |codes| == 0 {
          return None;
        }
        tty.input := tty.input + [None];
        assert tty.input == Refilled(codes);
      }
      r := tty.input[0];
      tty.input := tty.input[1..];
    }
  }
}
