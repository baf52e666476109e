/**
 * How a running program's stdin reads are answered, one call at a time.
 *
 * Emscripten programs read through a tty whose `input` queue holds codes
 * followed by a `null` end marker; a read on an empty queue asks for a new
 * line, a read on a non-empty queue takes the head. Wasmer programs read
 * through a call counter instead: an even-numbered call asks for a line and
 * copies it into the caller's byte buffer, an odd-numbered call returns 0
 * (end of that line).
 */
module StdinQueue {
  import opened JsText

  /** The Emscripten tty record: pending input (`null` = None) and the unflushed output. */
  class Tty {
    var input: seq<Option<int>>
    var output: seq<int>

    constructor (input: seq<Option<int>>)
      ensures this.input == input && output == []
    {
      this.input := input;
      output := [];
    }
  }

  function SomeAll(codes: seq<int>): (q: seq<Option<int>>)
    ensures |q| == |codes| && forall i :: 0 <= i < |codes| ==> q[i] == Some(codes[i])
  {
    seq(|codes|, i requires 0 <= i < |codes| => Some(codes[i]))
  }

  /** The queue after a delivered line: its codes, then the `null` end marker. */
  function Refilled(codes: seq<int>): (q: seq<Option<int>>)
    ensures |q| == |codes| + 1 && q[|codes|] == None
    ensures forall i :: 0 <= i < |codes| ==> q[i] == Some(codes[i])
  {
    SomeAll(codes) + [None]
  }

  /** One answered read: what it returns, the queue after it, and whether it asked for input. */
  datatype Reply = Reply(result: Option<int>, queue: seq<Option<int>>, requested: bool)

  /**
   * One Emscripten stdin read. `delivered` is what a request would bring
   * back: None when the request is cancelled, else the codes of the line.
   */
  function EmscrStdinStep(queue: seq<Option<int>>, delivered: Option<seq<int>>): (r: Reply)
    ensures r.requested <==> queue == []
    ensures queue != [] ==> r.result == queue[0] && r.queue == queue[1..]
    ensures queue == [] && delivered.Some? && delivered.value != [] ==>
      r.result == Some(delivered.value[0]) && r.queue == Refilled(delivered.value)[1..]
    ensures queue == [] && (delivered.None? || delivered.value == []) ==> r.result == None && r.queue == []
  {
    if queue != [] then Reply(queue[0], queue[1..], false)
    else if delivered.None? || delivered.value == [] then Reply(None, [], true)
    else
      var q := Refilled(delivered.value);
      Reply(q[0], q[1..], true)
  }

  /** The results of `n` consecutive reads when every request delivers `line`. */
  function Reads(queue: seq<Option<int>>, line: seq<int>, n: nat): seq<Reply>
    decreases n
  {
    if n == 0 then []
    else
      var r := EmscrStdinStep(queue, Some(line));
      [r] + Reads(r.queue, line, n - 1)
  }

  /** Draining a queue: each read returns the head and none asks for input. */
  lemma {:induction false} DrainQueue(queue: seq<Option<int>>, line: seq<int>)
    ensures |Reads(queue, line, |queue|)| == |queue|
    ensures forall i :: 0 <= i < |queue| ==>
      Reads(queue, line, |queue|)[i].result == queue[i] && !Reads(queue, line, |queue|)[i].requested
    ensures |queue| > 0 ==> Reads(queue, line, |queue|)[|queue| - 1].queue == []
    decreases |queue|
  {
    if queue != [] {
      DrainQueue(queue[1..], line);
      var rest := Reads(queue[1..], line, |queue| - 1);
      assert Reads(queue, line, |queue|) == [EmscrStdinStep(queue, Some(line))] + rest;
      if |queue| > 1 {
        assert rest[|queue| - 2].queue == [];
      }
    }
  }

  /** The reads of one delivered line, from an empty queue to its end marker. */
  function Session(line: seq<int>): seq<Reply>
  {
    Reads([], line, |line| + 1)
  }

  /**
   * A delivered line is read in full: starting from an empty queue, the
   * first read asks for input, the following reads return the line's codes
   * and then `null` without asking again, and the queue is then empty.
   */
  lemma LineSession(line: seq<int>)
    requires line != []
    ensures |Session(line)| == |line| + 1
    ensures forall i :: 0 <= i < |line| ==> Session(line)[i].result == Some(line[i])
    ensures Session(line)[|line|].result == None
    ensures Session(line)[0].requested
    ensures forall i :: 1 <= i <= |line| ==> !Session(line)[i].requested
    ensures Session(line)[|line|].queue == []
  {
    var first := EmscrStdinStep([], Some(line));
    var q := Refilled(line)[1..];
    assert first.queue == q && |q| == |line|;
    DrainQueue(q, line);
    var rest := Reads(q, line, |q|);
    assert Reads([], line, |line| + 1) == [first] + rest;
    forall i | 1 <= i < |line| ensures rest[i - 1].result == Some(line[i]) {
      assert q[i - 1] == Refilled(line)[i];
    }
  }

  /** One answered Wasmer read: its return value, the new counter, and whether it asked. */
  datatype CountedReply = CountedReply(result: int, counter: nat, requested: bool)

  /**
   * One Wasmer stdin read on call counter `counter`: an odd counter ends the
   * line (0, no request); an even one asks and returns the delivered length.
   * A cancelled request returns 0 and leaves the counter alone.
   */
  function WasmerStdinStep(counter: nat, delivered: Option<seq<int>>): (r: CountedReply)
    ensures r.requested <==> counter % 2 == 0
    ensures counter % 2 != 0 ==> r.result == 0 && r.counter == counter + 1
    ensures counter % 2 == 0 && delivered.Some? ==> r.result == |delivered.value| && r.counter == counter + 1
    ensures counter % 2 == 0 && delivered.None? ==> r.result == 0 && r.counter == counter
  {
    if counter % 2 != 0 then CountedReply(0, counter + 1, false)
    else if delivered.None? then CountedReply(0, counter, true)
    else CountedReply(|delivered.value|, counter + 1, true)
  }

  /**
   * Delivered reads alternate: from an even counter a read delivers the
   * line, the next read returns 0 without asking, and the counter is even
   * again, so the pattern repeats for every later line.
   */
  lemma WasmerAlternates(counter: nat, line: seq<int>, other: Option<seq<int>>)
    requires counter % 2 == 0
    ensures WasmerStdinStep(counter, Some(line)).result == |line|
    ensures WasmerStdinStep(WasmerStdinStep(counter, Some(line)).counter, other) == CountedReply(0, counter + 2, false)
    ensures (counter + 2) % 2 == 0
  {
  }

  /** `Uint8Array` element stores: ToUint8 of the value. */
  function Uint8(n: int): (b: int)
    ensures 0 <= b < 256
    ensures 0 <= n < 256 ==> b == n
    ensures (b - n) % 256 == 0
  {
    n % 256
  }

  /** A byte buffer after `codes` are stored into it from index 0; stores past its end are dropped. */
  function CopiedInto(buffer: seq<int>, codes: seq<int>): (r: seq<int>)
    ensures |r| == |buffer|
    ensures forall i :: 0 <= i < |r| ==> r[i] == if i < |codes| then Uint8(codes[i]) else buffer[i]
  {
    seq(|buffer|, i requires 0 <= i < |buffer| => if i < |codes| then Uint8(codes[i]) else buffer[i])
  }

  /**
   * `codes.forEach((c, i) => buf[i] = c)` on a byte buffer: each code is
   * stored modulo 256, and stores past the end of the buffer are dropped.
   */
  method CopyCodes(buf: array<int>, codes: seq<int>)
    modifies buf
    ensures buf[..] == CopiedInto(old(buf[..]), codes)
  {
    var i := 0;
    while i < |codes|
      invariant 0 <= i <= |codes|
      invariant forall k :: 0 <= k < buf.Length ==> buf[k] == if k < i then Uint8(codes[k]) else old(buf[k])
    {
      if i < buf.Length {
        buf[i] := Uint8(codes[i]);
      }
      i := i + 1;
    }
    assert buf[..] == CopiedInto(old(buf[..]), codes);
  }
}
