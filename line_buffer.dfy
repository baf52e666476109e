/**
 * The output line buffer: text written to it is held back until a line feed
 * completes a line; each complete line (line feed included) goes to the
 * output function as one chunk, and `flush` hands over whatever is left.
 */
module LineBuffering {
  import opened JsText

  /** What `write` accepts: a string, or a number meaning one character code. */
  datatype Chunk = Text(s: JsString) | Code(n: int)

  /** The text a written value stands for. */
  function ChunkText(c: Chunk): (r: JsString)
    ensures c.Text? ==> r == c.s
    ensures c.Code? ==> r == FromCharCode(c.n) && |r| == 1
  {
    match c
    case Text(s) => s
    case Code(n) => FromCharCode(n)
  }

  /** The complete lines of `s`, each ending in its line feed, in order. */
  function CompleteLines(s: JsString): seq<JsString>
    decreases |s|
  {
    var i := IndexOf(s, LF);
    if i < 0 then [] else [s[..i + 1]] + CompleteLines(s[i + 1..])
  }

  /** A line is one line feed preceded by text without one. */
  predicate IsLine(line: JsString)
  {
    |line| > 0 && line[|line| - 1] == LF && LF !in line[..|line| - 1]
  }

  /** Text with a line feed: its first line comes off, the rest is processed alike. */
  lemma CompleteLinesStep(s: JsString)
    requires LF in s
    ensures IndexOf(s, LF) >= 0
    ensures CompleteLines(s) == [s[..IndexOf(s, LF) + 1]] + CompleteLines(s[IndexOf(s, LF) + 1..])
    ensures LastLine(s) == LastLine(s[IndexOf(s, LF) + 1..])
    ensures IsLine(s[..IndexOf(s, LF) + 1])
  {
    var i := IndexOf(s, LF);
    assert s[..i + 1][..i] == s[..i];
  }

  /** Every chunk is a line. */
  lemma {:induction false} LinesShape(s: JsString)
    ensures forall k :: 0 <= k < |CompleteLines(s)| ==> IsLine(CompleteLines(s)[k])
    decreases |s|
  {
    if LF in s {
      CompleteLinesStep(s);
      LinesShape(s[IndexOf(s, LF) + 1..]);
    }
  }

  /** The complete lines followed by the unfinished rest give back the text. */
  lemma {:induction false} LinesConserve(s: JsString)
    ensures Flatten(CompleteLines(s)) + LastLine(s) == s
    decreases |s|
  {
    if LF in s {
      var i := IndexOf(s, LF);
      CompleteLinesStep(s);
      var head, tail := s[..i + 1], s[i + 1..];
      LinesConserve(tail);
      FlattenCons(head, CompleteLines(tail));
      var lines, rest := Flatten(CompleteLines(tail)), LastLine(tail);
      assert Flatten(CompleteLines(s)) == head + lines;
      ConcatAssoc(head, lines, rest);
      SliceJoin(s, i + 1);
    }
  }

  /** One chunk per line feed. */
  lemma {:induction false} LinesCount(s: JsString)
    ensures |CompleteLines(s)| == Count(s, LF)
    decreases |s|
  {
    var i := IndexOf(s, LF);
    if i >= 0 {
      LinesCount(s[i + 1..]);
      assert s == (s[..i] + [LF]) + s[i + 1..];
      CountAppend(s[..i] + [LF], s[i + 1..], LF);
      CountAppend(s[..i], [LF], LF);
      assert Count([LF], LF) == Count([], LF) + 1;
    }
  }

  /** A chunk holds exactly one line feed, its last unit. */
  lemma LineHasOneLF(line: JsString)
    requires IsLine(line)
    ensures Count(line, LF) == 1
  {
    assert line == line[..|line| - 1] + [LF];
    CountAppend(line[..|line| - 1], [LF], LF);
    assert Count([LF], LF) == Count([], LF) + 1;
  }

  /**
   * The construction check: an output function is required. As written the
   * check throws `new ValueError(...)`, and since no `ValueError` exists in
   * JavaScript the thrown error is the ReferenceError raised by that lookup.
   */
  function ConstructorCheckAsWritten(outputFn: JsType): (r: Option<Exception>)
    ensures r.None? <==> outputFn == TFunction
    ensures r.Some? ==> r.value.kind == ReferenceError
  {
    if outputFn != TFunction then Some(Exception(ReferenceError, Lit("ValueError is not defined")))
    else None
  }

  /** The message the check was written to throw. */
  function NotAFunctionMessage(outputFn: JsType): JsString
  {
    Lit("'outputFn' must be a function but is '") + TypeOfName(outputFn) + Lit("'!")
  }

  /** The evidently intended check: a TypeError that names what was passed. */
  function ConstructorCheck(outputFn: JsType): (r: Option<Exception>)
    ensures r.None? <==> outputFn == TFunction
    ensures r.Some? ==> r.value == Exception(TypeError, NotAFunctionMessage(outputFn))
  {
    if outputFn != TFunction then Some(Exception(TypeError, NotAFunctionMessage(outputFn)))
    else None
  }

  /** As written, the caller never sees the message about `outputFn`. */
  lemma ConstructorMessageLost(outputFn: JsType)
    requires outputFn != TFunction
    ensures ConstructorCheckAsWritten(outputFn) != ConstructorCheck(outputFn)
  {
  }

  class LineBuffer {
    /** The pending, incomplete line. */
    var buffer: JsString
    /** Every chunk handed to the output function so far, in call order. */
    var emitted: seq<JsString>

    ghost predicate Valid()
      reads this
    {
      LF !in buffer
    }

    /** A buffer over an output function; the object exists only when the check passes. */
    constructor (outputFn: JsType)
      requires ConstructorCheck(outputFn).None?
      ensures Valid() && buffer == [] && emitted == []
    {
      buffer := [];
      emitted := [];
    }

    /** Append a value and hand over every line it completes. */
    method Write(value: Chunk)
      requires Valid()
      modifies this
      ensures Valid()
      ensures emitted == old(emitted) + CompleteLines(old(buffer) + ChunkText(value))
      ensures buffer == LastLine(old(buffer) + ChunkText(value))
    {
      var text := ChunkText(value);
      ghost var whole := buffer + text;
      buffer := buffer + text;
      var idx := IndexOf(buffer, LF);
      while idx >= 0
        invariant idx == IndexOf(buffer, LF)
        invariant emitted + CompleteLines(buffer) == old(emitted) + CompleteLines(whole)
        invariant LastLine(buffer) == LastLine(whole)
        decreases |buffer|
      {
        CompleteLinesStep(buffer);
        ConcatAssoc(emitted, [buffer[..idx + 1]], CompleteLines(buffer[idx + 1..]));
        emitted := emitted + [buffer[..idx + 1]];
        buffer := buffer[idx + 1..];
        idx := IndexOf(buffer, LF);
      }
    }

    /** Hand over the pending text, if any, and empty the buffer. */
    method Flush()
      requires Valid()
      modifies this
      ensures Valid() && buffer == []
      ensures emitted == if old(buffer) == [] then old(emitted) else old(emitted) + [old(buffer)]
    {
      if |buffer| > 0 {
        emitted := emitted + [buffer];
        buffer := [];
      }
    }
  }

  /**
   * What one `write` hands over: its chunks and the new buffer together are
   * the old buffer followed by the written text, and there is one chunk per
   * line feed in the written text.
   */
  lemma WriteConserves(buffer: JsString, text: JsString)
    requires LF !in buffer
    ensures Flatten(CompleteLines(buffer + text)) + LastLine(buffer + text) == buffer + text
    ensures |CompleteLines(buffer + text)| == Count(text, LF)
    ensures forall k :: 0 <= k < |CompleteLines(buffer + text)| ==> Count(CompleteLines(buffer + text)[k], LF) == 1
  {
    LinesConserve(buffer + text);
    LinesCount(buffer + text);
    LinesShape(buffer + text);
    CountAppend(buffer, text, LF);
    var lines := CompleteLines(buffer + text);
    forall k | 0 <= k < |lines| ensures Count(lines[k], LF) == 1 {
      LineHasOneLF(lines[k]);
    }
  }
}
