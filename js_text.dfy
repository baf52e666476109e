/**
 * JavaScript strings as the terminal sees them: sequences of UTF-16 code
 * units. `charCodeAt` is indexing, `String.fromCharCode` is ToUint16, and the
 * string helpers the core uses (`split`, `indexOf`, `trim`, the whitespace
 * tokenizer, the last-line extraction and the newline translation) are
 * defined here once, with the facts the rest of the model relies on.
 */
module JsText {

  /** One UTF-16 code unit, the element of a JS string. */
  type Unit = u: int | 0 <= u < 0x1_0000

  type JsString = seq<Unit>

  datatype Option<T> = None | Some(value: T)

  /** The built-in error classes the core throws or runs into. */
  datatype ErrorKind = Error | TypeError | ReferenceError | RangeError

  /** A thrown JS error: its class and its message. */
  datatype Exception = Exception(kind: ErrorKind, message: JsString)

  /** The answers of the `typeof` operator. */
  datatype JsType = TUndefined | TObject | TBoolean | TNumber | TBigint | TString | TSymbol | TFunction

  function TypeOfName(t: JsType): JsString
  {
    match t
    case TUndefined => Lit("undefined")
    case TObject => Lit("object")
    case TBoolean => Lit("boolean")
    case TNumber => Lit("number")
    case TBigint => Lit("bigint")
    case TString => Lit("string")
    case TSymbol => Lit("symbol")
    case TFunction => Lit("function")
  }

  /** A value, or the exception thrown instead of producing it. */
  datatype Result<T> = Ok(value: T) | Err(error: Exception)

  const NUL: Unit := 0
  const LF: Unit := 10
  const CR: Unit := 13
  const SLASH: Unit := 47
  const PIPE: Unit := 124
  const ETX: Unit := 3    // Ctrl+C as delivered by the terminal surface

  /** A Dafny literal as a JS string (literals used here are ASCII). */
  function Lit(s: string): (r: JsString)
    ensures |r| == |s|
  {
    seq(|s|, i requires 0 <= i < |s| => (s[i] as int) % 0x1_0000)
  }

  /** `String.fromCharCode(n)` for an integral n: one unit, n modulo 2^16. */
  function FromCharCode(n: int): (r: JsString)
    ensures |r| == 1
    ensures 0 <= n < 0x1_0000 ==> r[0] == n
    ensures r[0] == (n + 0x1_0000) % 0x1_0000
  {
    [n % 0x1_0000]
  }

  /** `codes.map(c => String.fromCharCode(c)).join("")` */
  function FromCharCodes(codes: seq<int>): (r: JsString)
    ensures |r| == |codes|
    ensures forall i :: 0 <= i < |codes| && 0 <= codes[i] < 0x1_0000 ==> r[i] == codes[i]
  {
    if codes == [] then [] else FromCharCodes(codes[..|codes| - 1]) + FromCharCode(codes[|codes| - 1])
  }

  /** The code units of a string as plain integers (`charCodeAt` of each). */
  function Codes(s: JsString): (r: seq<int>)
    ensures |r| == |s| && forall i :: 0 <= i < |s| ==> r[i] == s[i]
  {
    seq(|s|, i requires 0 <= i < |s| => s[i] as int)
  }

  lemma FromCharCodesOfCodes(s: JsString)
    ensures FromCharCodes(Codes(s)) == s
  {
  }

  /** ECMAScript WhiteSpace and LineTerminator: the `\s` class and what `trim` strips. */
  predicate IsSpace(u: Unit)
  {
    u == 0x09 || u == 0x0A || u == 0x0B || u == 0x0C || u == 0x0D || u == 0x20 ||
    u == 0xA0 || u == 0x1680 || (0x2000 <= u <= 0x200A) || u == 0x2028 || u == 0x2029 ||
    u == 0x202F || u == 0x205F || u == 0x3000 || u == 0xFEFF
  }

  /** Cutting a sequence in two and joining the halves gives it back. */
  lemma SliceJoin<T>(s: seq<T>, k: nat)
    requires k <= |s|
    ensures s[..k] + s[k..] == s
  {
  }

  /** Concatenation is associative (stated once so that proofs can name the step). */
  lemma ConcatAssoc<T>(a: seq<T>, b: seq<T>, c: seq<T>)
    ensures (a + b) + c == a + (b + c)
  {
  }

  /** Number of occurrences of `u` in `s`. */
  function Count(s: JsString, u: Unit): (n: nat)
    ensures n <= |s|
    ensures n == 0 <==> u !in s
  {
    if s == [] then 0 else Count(s[..|s| - 1], u) + (if s[|s| - 1] == u then 1 else 0)
  }

  lemma {:induction false} CountAppend(a: JsString, b: JsString, u: Unit)
    ensures Count(a + b, u) == Count(a, u) + Count(b, u)
    decreases |b|
  {
    if b == [] {
      assert a + b == a;
    } else {
      assert (a + b)[..|a + b| - 1] == a + b[..|b| - 1];
      CountAppend(a, b[..|b| - 1], u);
    }
  }

  /** `s.indexOf(u)`: the first index holding u, or -1. */
  function IndexOf(s: JsString, u: Unit): (r: int)
    ensures -1 <= r < |s|
    ensures r == -1 <==> u !in s
    ensures r >= 0 ==> s[r] == u && u !in s[..r]
  {
    if s == [] then -1
    else if s[0] == u then 0
    else
      var k := IndexOf(s[1..], u);
      assert s[1..][..if k < 0 then 0 else k] == s[1..1 + (if k < 0 then 0 else k)];
      if k < 0 then -1 else k + 1
  }

  /** Concatenation of a list of strings (`parts.join("")`). */
  function Flatten(parts: seq<JsString>): (r: JsString)
  {
    if parts == [] then [] else Flatten(parts[..|parts| - 1]) + parts[|parts| - 1]
  }

  lemma {:induction false} FlattenAppend(a: seq<JsString>, b: seq<JsString>)
    ensures Flatten(a + b) == Flatten(a) + Flatten(b)
    decreases |b|
  {
    if b == [] {
      assert a + b == a;
    } else {
      var init, x := b[..|b| - 1], b[|b| - 1];
      assert (a + b)[..|a + b| - 1] == a + init;
      FlattenAppend(a, init);
      assert Flatten(a + b) == Flatten(a + init) + x;
      assert Flatten(b) == Flatten(init) + x;
      ConcatAssoc(Flatten(a), Flatten(init), x);
    }
  }

  lemma FlattenCons(x: JsString, rest: seq<JsString>)
    ensures Flatten([x] + rest) == x + Flatten(rest)
  {
    FlattenAppend([x], rest);
    assert Flatten([x]) == Flatten([]) + x;
  }

  /** `parts.join(sep)` for a one-unit separator. */
  function Join(parts: seq<JsString>, sep: Unit): JsString
  {
    if parts == [] then []
    else if |parts| == 1 then parts[0]
    else parts[0] + [sep] + Join(parts[1..], sep)
  }

  /** `s.split(sep)` for a one-unit separator: the pieces between separators. */
  function Split(s: JsString, sep: Unit): (parts: seq<JsString>)
    ensures |parts| >= 1
    ensures forall i :: 0 <= i < |parts| ==> sep !in parts[i]
    decreases |s|
  {
    var i := IndexOf(s, sep);
    if i < 0 then [s] else [s[..i]] + Split(s[i + 1..], sep)
  }

  /** Two separator-free pieces around one separator split back into those pieces. */
  lemma SplitAround(a: JsString, b: JsString, sep: Unit)
    requires sep !in a && sep !in b
    ensures Split(a + [sep] + b, sep) == [a, b]
  {
    var s := a + [sep] + b;
    var i := IndexOf(s, sep);
    assert s[|a|] == sep;
    assert i == |a|;
    assert s[..i] == a && s[i + 1..] == b;
    assert Split(b, sep) == [b];
  }

  /** Splitting and joining on the same separator gives the string back. */
  lemma {:induction false} JoinSplit(s: JsString, sep: Unit)
    ensures Join(Split(s, sep), sep) == s
    decreases |s|
  {
    var i := IndexOf(s, sep);
    if i >= 0 {
      var rest := Split(s[i + 1..], sep);
      JoinSplit(s[i + 1..], sep);
      JoinCons(s[..i], rest, sep);
      assert s == s[..i] + [sep] + s[i + 1..];
    }
  }

  lemma JoinCons(a: JsString, rest: seq<JsString>, sep: Unit)
    requires |rest| >= 1
    ensures Join([a] + rest, sep) == a + [sep] + Join(rest, sep)
  {
    assert ([a] + rest)[1..] == rest;
  }

  /** A string splits into one piece more than it has separators. */
  lemma {:induction false} SplitCount(s: JsString, sep: Unit)
    ensures |Split(s, sep)| == Count(s, sep) + 1
    decreases |s|
  {
    var i := IndexOf(s, sep);
    if i >= 0 {
      SplitCount(s[i + 1..], sep);
      assert Split(s, sep) == [s[..i]] + Split(s[i + 1..], sep);
      assert s == (s[..i] + [sep]) + s[i + 1..];
      CountAppend(s[..i] + [sep], s[i + 1..], sep);
      CountAppend(s[..i], [sep], sep);
      assert Count([sep], sep) == Count([], sep) + 1;
      assert Count(s[..i], sep) == 0;
    }
  }

  /**
   * `s.split(/\r?\n/g).pop()`: the text after the last line feed (an optional
   * carriage return before a line feed belongs to the separator, so it never
   * reaches the last piece).
   */
  function LastLine(s: JsString): (r: JsString)
    ensures LF !in r
    decreases |s|
  {
    var i := IndexOf(s, LF);
    if i < 0 then s else LastLine(s[i + 1..])
  }

  /** Appending text without a line feed extends the last line by exactly that text. */
  lemma {:induction false} LastLineAppend(s: JsString, t: JsString)
    requires LF !in t
    ensures LastLine(s + t) == LastLine(s) + t
    decreases |s|
  {
    var i := IndexOf(s, LF);
    if i < 0 {
      assert LF !in s + t by {
        assert forall k :: 0 <= k < |s + t| ==> (s + t)[k] == if k < |s| then s[k] else t[k - |s|];
      }
    } else {
      var rest := s[i + 1..];
      assert IndexOf(s + t, LF) == i by { IndexOfPrefix(s, t, LF); }
      assert (s + t)[i + 1..] == rest + t;
      assert LastLine(s + t) == LastLine(rest + t);
      assert LastLine(s) == LastLine(rest);
      LastLineAppend(rest, t);
    }
  }

  /** The first occurrence inside a prefix is the first occurrence of the whole. */
  lemma {:induction false} IndexOfPrefix(s: JsString, t: JsString, u: Unit)
    requires u in s
    ensures IndexOf(s + t, u) == IndexOf(s, u)
    decreases |s|
  {
    if s[0] != u {
      assert (s + t)[1..] == s[1..] + t;
      assert u in s[1..];
      IndexOfPrefix(s[1..], t, u);
    }
  }

  /** Right after a line feed the last line is empty (the caption after an echoed answer). */
  lemma {:induction false} LastLineAfterLF(s: JsString)
    ensures LastLine(s + [LF]) == []
    decreases |s|
  {
    if LF in s {
      var i := IndexOf(s, LF);
      IndexOfPrefix(s, [LF], LF);
      assert (s + [LF])[i + 1..] == s[i + 1..] + [LF];
      LastLineAfterLF(s[i + 1..]);
    } else {
      assert IndexOf(s + [LF], LF) == |s|;
      assert (s + [LF])[|s| + 1..] == [];
    }
  }

  /** `s.trim()`: leading and trailing whitespace removed. */
  function Trim(s: JsString): (r: JsString)
    ensures |r| <= |s|
    decreases |s|
  {
    if s == [] then []
    else if IsSpace(s[0]) then Trim(s[1..])
    else if IsSpace(s[|s| - 1]) then Trim(s[..|s| - 1])
    else s
  }

  predicate IsBlank(s: JsString)
  {
    forall i :: 0 <= i < |s| ==> IsSpace(s[i])
  }

  /** `s.trim() === ""` holds exactly for strings made only of whitespace. */
  lemma {:induction false} TrimEmptyIffBlank(s: JsString)
    ensures Trim(s) == [] <==> IsBlank(s)
    decreases |s|
  {
    if s == [] {
    } else if IsSpace(s[0]) {
      TrimEmptyIffBlank(s[1..]);
      assert IsBlank(s) <==> IsBlank(s[1..]) by {
        if IsBlank(s[1..]) {
          forall i | 0 <= i < |s| ensures IsSpace(s[i]) {
            if i > 0 { assert s[i] == s[1..][i - 1]; }
          }
        }
      }
    } else if IsSpace(s[|s| - 1]) {
      assert !IsBlank(s);
      TrimNonBlank(s[..|s| - 1]);
    } else {
      assert !IsBlank(s);
    }
  }

  lemma {:induction false} TrimNonBlank(s: JsString)
    requires s != [] && !IsSpace(s[0])
    ensures Trim(s) != []
    decreases |s|
  {
    if IsSpace(s[|s| - 1]) {
      assert |s| > 1;
      TrimNonBlank(s[..|s| - 1]);
    }
  }

  /** The longest prefix without whitespace. */
  function Word(s: JsString): (w: JsString)
    ensures |w| <= |s| && w == s[..|w|]
    ensures forall i :: 0 <= i < |w| ==> !IsSpace(w[i])
    ensures |w| < |s| ==> IsSpace(s[|w|])
    decreases |s|
  {
    if s == [] || IsSpace(s[0]) then [] else [s[0]] + Word(s[1..])
  }

  /**
   * `s.split(/[\s]{1,}/g).filter(Boolean)`: the maximal runs of
   * non-whitespace, in order, with the empty pieces dropped.
   */
  function Tokens(s: JsString): (ts: seq<JsString>)
    decreases |s|
  {
    if s == [] then []
    else if IsSpace(s[0]) then Tokens(s[1..])
    else
      var w := Word(s);
      [w] + Tokens(s[|w|..])
  }

  /** The units of `s` that are not whitespace. */
  function NonSpace(s: JsString): (r: JsString)
    ensures |r| <= |s|
  {
    if s == [] then [] else (if IsSpace(s[0]) then [] else [s[0]]) + NonSpace(s[1..])
  }

  lemma {:induction false} NonSpaceAppend(a: JsString, b: JsString)
    ensures NonSpace(a + b) == NonSpace(a) + NonSpace(b)
    decreases |a|
  {
    if a != [] {
      assert (a + b)[1..] == a[1..] + b;
      NonSpaceAppend(a[1..], b);
    } else {
      assert a + b == b;
    }
  }

  lemma {:induction false} NonSpaceOfWord(w: JsString)
    requires forall i :: 0 <= i < |w| ==> !IsSpace(w[i])
    ensures NonSpace(w) == w
    decreases |w|
  {
    if w != [] { NonSpaceOfWord(w[1..]); }
  }

  /** Every token is a non-empty run of non-whitespace. */
  lemma {:induction false} TokensAreWords(s: JsString)
    ensures forall i :: 0 <= i < |Tokens(s)| ==>
      Tokens(s)[i] != [] && forall j :: 0 <= j < |Tokens(s)[i]| ==> !IsSpace(Tokens(s)[i][j])
    decreases |s|
  {
    if s != [] {
      if IsSpace(s[0]) {
        TokensAreWords(s[1..]);
      } else {
        var w := Word(s);
        var rest := Tokens(s[|w|..]);
        TokensAreWords(s[|w|..]);
        assert Tokens(s) == [w] + rest;
        assert w != [] by {
          assert w == [s[0]] + Word(s[1..]);
        }
        forall i | 1 <= i < |Tokens(s)| ensures Tokens(s)[i] == rest[i - 1] { }
      }
    }
  }

  /** Tokenizing loses exactly the whitespace: the tokens concatenate to the non-space units. */
  lemma {:induction false} TokensKeepNonSpace(s: JsString)
    ensures Flatten(Tokens(s)) == NonSpace(s)
    decreases |s|
  {
    if s == [] {
    } else if IsSpace(s[0]) {
      TokensKeepNonSpace(s[1..]);
    } else {
      var w := Word(s);
      TokensKeepNonSpace(s[|w|..]);
      FlattenCons(w, Tokens(s[|w|..]));
      assert s == w + s[|w|..];
      NonSpaceAppend(w, s[|w|..]);
      NonSpaceOfWord(w);
    }
  }

  /** A whitespace unit always separates tokens: the two sides tokenize independently. */
  lemma {:induction false} TokensSeparate(a: JsString, u: Unit, b: JsString)
    requires IsSpace(u)
    ensures Tokens(a + [u] + b) == Tokens(a) + Tokens(b)
    decreases |a|
  {
    var s := a + [u] + b;
    if a == [] {
      assert s[1..] == b;
      assert Tokens(s) == Tokens(b);
    } else if IsSpace(a[0]) {
      assert s[1..] == a[1..] + [u] + b;
      TokensSeparate(a[1..], u, b);
      assert Tokens(s) == Tokens(s[1..]) && Tokens(a) == Tokens(a[1..]);
    } else {
      var w := Word(a);
      var n := |w|;
      FirstWordOf(a, u, b);
      if n == |a| {
        assert Tokens(s[n..]) == Tokens(b) by {
          assert s[n..] == [u] + b;
          assert ([u] + b)[1..] == b;
        }
        assert Tokens(a[n..]) == [] by {
          assert a[n..] == [];
        }
      } else {
        assert s[n..] == a[n..] + [u] + b;
        TokensSeparate(a[n..], u, b);
        ConcatAssoc([w], Tokens(a[n..]), Tokens(b));
      }
    }
  }

  /** The first word of `a`, with whitespace after `a`, is also the first word of the whole. */
  lemma FirstWordOf(a: JsString, u: Unit, b: JsString)
    requires a != [] && !IsSpace(a[0]) && IsSpace(u)
    ensures var n := |Word(a)|;
      Tokens(a + [u] + b) == [Word(a)] + Tokens((a + [u] + b)[n..]) && Tokens(a) == [Word(a)] + Tokens(a[n..])
  {
    WordPrefix(a, [u] + b);
    assert a + [u] + b == a + ([u] + b);
  }

  lemma {:induction false} WordPrefix(a: JsString, b: JsString)
    requires b != [] && IsSpace(b[0])
    ensures Word(a + b) == Word(a)
    decreases |a|
  {
    if a == [] {
      assert a + b == b;
    } else if !IsSpace(a[0]) {
      assert (a + b)[1..] == a[1..] + b;
      WordPrefix(a[1..], b);
    }
  }

  /** `s.replace(/\n/g, "\r\n")`: a carriage return before every line feed. */
  function ExpandNewlines(s: JsString): (r: JsString)
    ensures |r| == |s| + Count(s, LF)
    decreases |s|
  {
    if s == [] then []
    else
      var head := if s[0] == LF then [CR, LF] else [s[0]];
      CountAppend([s[0]], s[1..], LF);
      assert [s[0]] + s[1..] == s;
      head + ExpandNewlines(s[1..])
  }

  /** Undo of the translation: a carriage return immediately before a line feed is dropped. */
  function CollapseNewlines(t: JsString): JsString
    decreases |t|
  {
    if t == [] then []
    else if |t| >= 2 && t[0] == CR && t[1] == LF then [LF] + CollapseNewlines(t[2..])
    else [t[0]] + CollapseNewlines(t[1..])
  }

  /** Every line feed of the translated text is preceded by a carriage return. */
  predicate NoBareLF(t: JsString)
  {
    forall i :: 0 <= i < |t| && t[i] == LF ==> i > 0 && t[i - 1] == CR
  }

  /** The translation never starts with a line feed. */
  lemma ExpandNewlinesHead(s: JsString)
    requires s != []
    ensures ExpandNewlines(s)[0] == (if s[0] == LF then CR else s[0])
    ensures ExpandNewlines(s)[0] != LF
  {
  }

  /** The translation loses nothing: collapsing it gives the text back. */
  lemma {:induction false} ExpandNewlinesRoundTrip(s: JsString)
    ensures CollapseNewlines(ExpandNewlines(s)) == s
    decreases |s|
  {
    if s != [] {
      var rest := ExpandNewlines(s[1..]);
      var t := ExpandNewlines(s);
      ExpandNewlinesRoundTrip(s[1..]);
      if s[0] == LF {
        assert t == [CR, LF] + rest;
        assert CollapseNewlines(t) == [LF] + CollapseNewlines(rest);
      } else {
        assert t == [s[0]] + rest;
        if rest != [] {
          ExpandNewlinesHead(s[1..]);
        }
        assert t[1..] == rest;
        assert CollapseNewlines(t) == [s[0]] + CollapseNewlines(rest);
      }
      assert [s[0]] + s[1..] == s;
    }
  }

  /** The translation leaves no line feed bare. */
  lemma {:induction false} ExpandNewlinesNoBareLF(s: JsString)
    ensures NoBareLF(ExpandNewlines(s))
    decreases |s|
  {
    if s != [] {
      var rest := ExpandNewlines(s[1..]);
      var t := ExpandNewlines(s);
      ExpandNewlinesNoBareLF(s[1..]);
      if s[0] == LF {
        assert t == [CR, LF] + rest;
        forall i | 0 <= i < |t| && t[i] == LF ensures i > 0 && t[i - 1] == CR {
          if i >= 2 { assert t[i] == rest[i - 2]; }
        }
      } else {
        assert t == [s[0]] + rest;
        if rest != [] {
          ExpandNewlinesHead(s[1..]);
        }
        forall i | 0 <= i < |t| && t[i] == LF ensures i > 0 && t[i - 1] == CR {
          assert i >= 1 && t[i] == rest[i - 1];
        }
      }
    }
  }

  /** `s.replace("\n", "\r\n")`: only the FIRST line feed gets a carriage return. */
  function ExpandFirstNewline(s: JsString): (r: JsString)
    ensures LF !in s ==> r == s
    ensures LF in s ==> |r| == |s| + 1 && Count(r, LF) == Count(s, LF)
  {
    var i := IndexOf(s, LF);
    if i < 0 then s
    else
      assert s == s[..i] + [LF] + s[i + 1..];
      CountAppend(s[..i] + [LF], s[i + 1..], LF);
      CountAppend(s[..i], [LF], LF);
      CountAppend(s[..i] + [CR, LF], s[i + 1..], LF);
      CountAppend(s[..i], [CR, LF], LF);
      assert Count([CR, LF], LF) == Count([CR], LF) + 1;
      assert Count([CR], LF) == Count([], LF) + 0;
      assert Count([LF], LF) == Count([], LF) + 1;
      s[..i] + [CR, LF] + s[i + 1..]
  }
}
