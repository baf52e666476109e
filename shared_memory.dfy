/**
 * The two shared Int32 arrays through which the terminal hands a line of
 * input to a command running in the background: a one-slot pause word
 * (1 = hold, 0 = go) and a 1000-slot stdin window holding character codes
 * terminated by 0. Both generations of terminal and background runner use
 * the same protocol, so it is modelled once.
 */
module SharedMemory {
  import opened JsText

  /** Slots of the stdin window the terminal allocates. */
  const STDIN_SLOTS: nat := 1000

  const HOLD: int := 1
  const GO: int := 0

  /** The window after writing `s` into `n` slots: the codes of `s`, then zeros. */
  function Filled(s: JsString, n: nat): (w: seq<int>)
    ensures |w| == n
    ensures forall i :: 0 <= i < n ==> w[i] == if i < |s| then s[i] as int else 0
  {
    seq(n, i requires 0 <= i < n => if i < |s| then s[i] as int else 0)
  }

  /** What the reader gets from a window: every slot before the first 0. */
  function BeforeZero(w: seq<int>): (r: seq<int>)
    ensures |r| <= |w| && r == w[..|r|]
    ensures 0 !in r
    ensures |r| < |w| ==> w[|r|] == 0
  {
    if w == [] || w[0] == 0 then [] else [w[0]] + BeforeZero(w[1..])
  }

  function Min(a: int, b: int): int { if a < b then a else b }

  /**
   * Reading back what was written: for a line without NUL characters the
   * reader gets the codes of its first `n` characters, nothing more.
   */
  lemma {:induction false} ReadAfterSet(s: JsString, n: nat)
    requires NUL !in s
    ensures BeforeZero(Filled(s, n)) == Codes(s)[..Min(|s|, n)]
    decreases n
  {
    if n > 0 && s != [] {
      assert Filled(s, n)[1..] == Filled(s[1..], n - 1);
      assert NUL !in s[1..] by {
        forall i | 0 <= i < |s[1..]| ensures s[1..][i] != NUL { assert s[1..][i] == s[i + 1]; }
      }
      ReadAfterSet(s[1..], n - 1);
      assert Codes(s)[..Min(|s|, n)] == [s[0] as int] + Codes(s[1..])[..Min(|s| - 1, n - 1)];
    }
  }

  /** A NUL inside the line cuts what the reader gets at that character. */
  lemma ReadStopsAtNul(s: JsString, n: nat, k: nat)
    requires k < |s| && k < n && s[k] == NUL && NUL !in s[..k]
    ensures BeforeZero(Filled(s, n)) == Codes(s)[..k]
  {
    var w := Filled(s, n);
    assert forall j :: 0 <= j < k ==> w[j] == s[..k][j] as int && w[j] != 0;
    assert w[k] == 0;
  }

  class SharedBuffers {
    const pause: array<int>
    const stdin: array<int>

    ghost predicate Valid()
      reads this
    {
      pause.Length == 1 && stdin.Length == STDIN_SLOTS && pause != stdin
    }

    /** The terminal's allocation: one pause slot and 1000 stdin slots, all 0. */
    constructor ()
      ensures Valid() && fresh(pause) && fresh(stdin)
      ensures pause[..] == [GO] && stdin[..] == Filled([], STDIN_SLOTS)
    {
      pause := new int[1](i => 0);
      stdin := new int[STDIN_SLOTS](i => 0);
    }

    /** Background side: announce a hold before waiting (the wait itself is not modelled). */
    method PauseExecution()
      requires Valid()
      modifies pause
      ensures pause[..] == [HOLD]
    {
      pause[0] := HOLD;
    }

    /** Either side: store "go" in the pause word. */
    method ResumeExecution()
      requires Valid()
      modifies pause
      ensures pause[..] == [GO]
    {
      pause[0] := GO;
    }

    /** Terminal side: write a line's codes into the window, 0 in every slot after it. */
    method SetStdinBuffer(s: JsString)
      requires Valid()
      modifies stdin
      ensures stdin[..] == Filled(s, stdin.Length)
    {
      var i := 0;
      while i < stdin.Length
        invariant 0 <= i <= stdin.Length
        invariant forall k :: 0 <= k < i ==> stdin[k] == if k < |s| then s[k] as int else 0
      {
        stdin[i] := if i < |s| then s[i] as int else 0;
        i := i + 1;
      }
    }

    /** Terminal side, while the background holds: the line into the window, then "go". */
    method Answer(s: JsString)
      requires Valid()
      modifies stdin, pause
      ensures stdin[..] == Filled(s, STDIN_SLOTS) && pause[..] == [GO]
    {
      SetStdinBuffer(s);
      ResumeExecution();
    }

    /**
     * One whole handshake for a line: the background holds, the terminal
     * answers with `s`, and the background reads the window back.
     */
    method Exchange(s: JsString) returns (codes: seq<int>)
      requires Valid()
      modifies stdin, pause
      ensures codes == BeforeZero(Filled(s, STDIN_SLOTS))
      ensures stdin[..] == Filled(s, STDIN_SLOTS) && pause[..] == [GO]
    {
      PauseExecution();
      Answer(s);
      codes := ReadStdinBuffer();
    }

    /** Background side: the codes before the first 0 (the whole window if there is none). */
    method ReadStdinBuffer() returns (r: seq<int>)
      ensures r == BeforeZero(stdin[..])
    {
      r := [];
      var i := 0;
      while i < stdin.Length
        invariant 0 <= i <= stdin.Length
        invariant r == stdin[..i] && 0 !in r
        invariant BeforeZero(stdin[..]) == r + BeforeZero(stdin[i..])
      {
        var value := stdin[i];
        if value == 0 {
          break;
        }
        assert stdin[i..][1..] == stdin[i + 1..];
        r := r + [value];
        i := i + 1;
      }
    }

    /** Background side: one slot; an index outside the window is a RangeError. */
    method ReadStdinSlot(index: int) returns (r: Result<int>)
      ensures 0 <= index < stdin.Length ==> r == Ok(stdin[index])
      ensures !(0 <= index < stdin.Length) ==> r.Err? && r.error.kind == RangeError
    {
      if 0 <= index < stdin.Length {
        r := Ok(stdin[index]);
      } else {
        r := Err(Exception(RangeError, Lit("Invalid atomic access index")));
      }
    }
  }
}
