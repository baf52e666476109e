/**
 * The shell history: the `size` most recent non-blank command lines, with
 * no entry repeated twice in a row, and a cursor that the arrow keys move
 * between the oldest entry (0) and one past the newest (`|entries|`).
 */
module HistoryRing {
  import opened JsText

  function Max0(n: int): nat { if n < 0 then 0 else n }

  /** `entries[i]`, or undefined when i is past the end. */
  function At(entries: seq<JsString>, i: int): (r: Option<JsString>)
    requires 0 <= i
    ensures r.None? <==> i >= |entries|
    ensures r.Some? ==> r.value == entries[i]
  {
    if i < |entries| then Some(entries[i]) else None
  }

  /** Whether `push` keeps the entry: not blank, and not a repeat of the newest entry. */
  predicate Accepts(entries: seq<JsString>, entry: JsString)
  {
    Trim(entry) != [] && !(|entries| > 0 && entry == entries[|entries| - 1])
  }

  /** Entries are non-blank and no two neighbours are equal. */
  predicate WellFormed(entries: seq<JsString>)
  {
    (forall i :: 0 <= i < |entries| ==> Trim(entries[i]) != []) &&
    (forall i :: 0 <= i < |entries| - 1 ==> entries[i] != entries[i + 1])
  }

  /** The entry list after `push(entry)` with capacity `size`. */
  function Pushed(entries: seq<JsString>, size: int, entry: JsString): (r: seq<JsString>)
    ensures !Accepts(entries, entry) ==> r == entries
    ensures Accepts(entries, entry) && size >= 1 ==> |r| >= 1 && r[|r| - 1] == entry
    ensures Accepts(entries, entry) && |entries| + 1 <= size ==> r == entries + [entry]
    ensures Accepts(entries, entry) && |entries| + 1 > size && entries != [] ==> r == entries[1..] + [entry]
    ensures |entries| <= Max0(size) ==> |r| <= Max0(size)
    ensures WellFormed(entries) ==> WellFormed(r)
  {
    if !Accepts(entries, entry) then entries
    else
      var appended := entries + [entry];
      if |appended| > size then appended[1..] else appended
  }

  /** Pushing a sequence of entries one after the other. */
  function PushAll(entries: seq<JsString>, size: int, xs: seq<JsString>): seq<JsString>
  {
    if xs == [] then entries else Pushed(PushAll(entries, size, xs[..|xs| - 1]), size, xs[|xs| - 1])
  }

  /** The newest `n` elements of `s`. */
  function Newest(s: seq<JsString>, n: nat): (r: seq<JsString>)
    ensures |r| == if |s| <= n then |s| else n
  {
    if |s| <= n then s else s[|s| - n..]
  }

  /** Taking the newest `n` after one more element: the window slides by one once it is full. */
  lemma NewestSnoc(s: seq<JsString>, x: JsString, n: nat)
    requires n >= 1
    ensures var before := Newest(s, n);
      Newest(s + [x], n) == if |before| + 1 > n then (before + [x])[1..] else before + [x]
  {
    var before := Newest(s, n);
    if |before| + 1 > n {
      assert (before + [x])[1..] == (s + [x])[|s + [x]| - n..];
    }
  }

  /**
   * Pushing entries that are all kept (non-blank, never equal to their
   * predecessor) leaves exactly the newest `size` of everything pushed: the
   * history is a sliding window.
   */
  lemma {:induction false} PushAllWindow(entries: seq<JsString>, size: int, xs: seq<JsString>)
    requires size >= 1 && |entries| <= size
    requires WellFormed(entries + xs)
    ensures PushAll(entries, size, xs) == Newest(entries + xs, size)
    decreases |xs|
  {
    if xs != [] {
      var init := xs[..|xs| - 1];
      var x := xs[|xs| - 1];
      var all := entries + xs;
      assert all == (entries + init) + [x];
      assert WellFormed(entries + init) by {
        assert forall i :: 0 <= i < |entries + init| ==> (entries + init)[i] == all[i];
      }
      PushAllWindow(entries, size, init);
      var before := Newest(entries + init, size);
      assert Accepts(before, x) by {
        assert x == all[|all| - 1];
        if |before| > 0 {
          assert before[|before| - 1] == all[|all| - 2];
        }
      }
      NewestSnoc(entries + init, x, size);
    }
  }

  class History {
    const size: int
    var entries: seq<JsString>
    var cursor: int

    ghost predicate Valid()
      reads this
    {
      0 <= cursor <= |entries| <= Max0(size) && WellFormed(entries)
    }

    /** A new, empty history whose capacity `size` stays fixed (the `size` getter). */
    constructor (size: int)
      ensures Valid() && this.size == size
      ensures entries == [] && cursor == 0
    {
      this.size := size;
      entries := [];
      cursor := 0;
    }

    /** Record a command line: blanks and repeats of the newest entry are skipped. */
    method Push(entry: JsString)
      requires Valid()
      modifies this
      ensures Valid()
      ensures entries == Pushed(old(entries), size, entry)
      ensures cursor == if Accepts(old(entries), entry) then |entries| else old(cursor)
    {
      if Trim(entry) == [] {
        return;
      }
      if |entries| > 0 && entry == entries[|entries| - 1] {
        return;
      }
      entries := entries + [entry];
      if |entries| > size {
        entries := entries[1..];
      }
      cursor := |entries|;
    }

    /** Put the cursor one past the newest entry. */
    method Rewind()
      requires Valid()
      modifies this
      ensures Valid() && entries == old(entries)
      ensures cursor == |entries|
    {
      cursor := |entries|;
    }

    /** Move towards older entries, stopping at the oldest, and return the entry there. */
    method GetPrevious() returns (r: Option<JsString>)
      requires Valid()
      modifies this
      ensures Valid() && entries == old(entries)
      ensures cursor == if old(cursor) > 0 then old(cursor) - 1 else 0
      ensures r == At(entries, cursor)
      ensures r.None? <==> entries == []
    {
      cursor := if cursor - 1 > 0 then cursor - 1 else 0;
      r := At(entries, cursor);
    }

    /** Move towards newer entries, stopping one past the newest, and return the entry there. */
    method GetNext() returns (r: Option<JsString>)
      requires Valid()
      modifies this
      ensures Valid() && entries == old(entries)
      ensures cursor == if old(cursor) + 1 < |entries| then old(cursor) + 1 else |entries|
      ensures r == At(entries, cursor)
      ensures r.None? <==> cursor == |entries|
    {
      cursor := if |entries| < cursor + 1 then |entries| else cursor + 1;
      r := At(entries, cursor);
    }
  }
}
