/** Escaping help text for the reference page: what MDX would read as JSX or an expression,
    outside code spans, and for table cells the pipes as well. */
module Escaping {
  import opened Sequences

  const SPECIAL: set<char> := {'<', '>', '{', '}'}

  // The program takes every backtick for the start or the end of a code span.

  /** Whether it takes the text after `c` for code. */
  predicate Next(c: char, inCode: bool) {
    if c == '`' then !inCode else inCode
  }

  /** Whether it takes what follows `s` for code, if it took `s` for that at its start. */
  predicate CodeAfter(s: string, inCode: bool) {
    if s == "" then inCode else CodeAfter(s[1..], Next(s[0], inCode))
  }

  function Piece(c: char, inCode: bool): string {
    if c in SPECIAL && !inCode then ['\\', c] else [c]
  }

  function Escaped(s: string, inCode: bool): string {
    if s == "" then "" else Piece(s[0], inCode) + Escaped(s[1..], Next(s[0], inCode))
  }

  function PipesEscaped(s: string): string {
    if s == "" then "" else (if s[0] == '|' then "\\|" else [s[0]]) + PipesEscaped(s[1..])
  }

  function Cell(value: string): string {
    PipesEscaped(Escaped(value, false))
  }

  // ----- Left inverses -----

  /** Drops the backslash directly before a special character outside code. */
  function Unescaped(s: string, inCode: bool): string {
    if s == "" then ""
    else if !inCode && s[0] == '\\' && |s| > 1 && s[1] in SPECIAL then [s[1]] + Unescaped(s[2..], inCode)
    else [s[0]] + Unescaped(s[1..], Next(s[0], inCode))
  }

  /** Drops the backslash directly before a pipe. */
  function PipesUnescaped(s: string): string {
    if s == "" then ""
    else if s[0] == '\\' && |s| > 1 && s[1] == '|' then "|" + PipesUnescaped(s[2..])
    else [s[0]] + PipesUnescaped(s[1..])
  }

  /** Every text can be read back from its escaped form, backslashes of its own included. */
  lemma {:induction false} TextRoundTrip(s: string, inCode: bool)
    ensures Unescaped(Escaped(s, inCode), inCode) == s
  {
    if s != "" {
      var rest := s[1..];
      TextRoundTrip(rest, Next(s[0], inCode));
      var e := Escaped(s, inCode);
      if s[0] in SPECIAL && !inCode {
        assert e[2..] == Escaped(rest, inCode) && e[1] == s[0];
      } else {
        assert e[0] == s[0] && e[1..] == Escaped(rest, Next(s[0], inCode));
        assert rest != "" && !inCode && s[0] == '\\' ==> e[1] !in SPECIAL;
      }
    }
  }

  lemma {:induction false} PipesRoundTrip(s: string)
    ensures PipesUnescaped(PipesEscaped(s)) == s
  {
    if s != "" {
      PipesRoundTrip(s[1..]);
      var e := PipesEscaped(s);
      if s[0] == '|' {
        assert e[2..] == PipesEscaped(s[1..]);
      } else {
        assert e[1..] == PipesEscaped(s[1..]);
      }
    }
  }

  lemma CellRoundTrip(value: string)
    ensures Unescaped(PipesUnescaped(Cell(value)), false) == value
  {
    PipesRoundTrip(Escaped(value, false));
    TextRoundTrip(value, false);
  }

  // ----- What stays, and what is guarded -----

  lemma {:induction false} EscapedConcat(a: string, b: string, inCode: bool)
    ensures Escaped(a + b, inCode) == Escaped(a, inCode) + Escaped(b, CodeAfter(a, inCode))
  {
    if a == "" {
      assert a + b == b;
    } else {
      var rest, inside := a[1..], Next(a[0], inCode);
      Tail(a, b);
      EscapedConcat(rest, b, inside);
      Assoc(Piece(a[0], inCode), Escaped(rest, inside), Escaped(b, CodeAfter(rest, inside)));
    }
  }

  /** Nothing is escaped exactly if every special character is taken for code. */
  lemma {:induction false} KeptIf(s: string, inCode: bool)
    ensures Escaped(s, inCode) == s <==> forall i :: 0 <= i < |s| && s[i] in SPECIAL ==> CodeAfter(s[..i], inCode)
  {
    if s != "" {
      var rest, next := s[1..], Next(s[0], inCode);
      KeptIf(rest, next);
      assert forall i :: 0 < i <= |s| ==> s[..i][1..] == rest[..i - 1];
      assert forall i :: 0 < i <= |s| ==> CodeAfter(s[..i], inCode) == CodeAfter(rest[..i - 1], next);
      assert forall i :: 0 <= i < |rest| ==> rest[i] == s[i + 1];
      if s[0] in SPECIAL && !inCode {
        assert s[..0] == "" && Escaped(s, inCode)[0] == '\\';
      } else {
        assert Escaped(s, inCode)[1..] == Escaped(rest, next);
      }
    }
  }

  predicate IsRun(s: string) {
    forall i :: 0 <= i < |s| ==> s[i] == '`'
  }

  lemma {:induction false} RunIsKept(ticks: string, inCode: bool)
    requires IsRun(ticks)
    ensures Escaped(ticks, inCode) == ticks
    ensures CodeAfter(ticks, inCode) == (inCode != (|ticks| % 2 == 1))
  {
    if ticks != "" {
      RunIsKept(ticks[1..], !inCode);
      assert [ticks[0]] + ticks[1..] == ticks;
    }
  }

  lemma {:induction false} CodeAfterFlips(s: string, inCode: bool)
    ensures CodeAfter(s, !inCode) == !CodeAfter(s, inCode)
  {
    if s != "" {
      CodeAfterFlips(s[1..], Next(s[0], inCode));
    }
  }

  lemma {:induction false} CodeAfterConcat(a: string, b: string, inCode: bool)
    ensures CodeAfter(a + b, inCode) == CodeAfter(b, CodeAfter(a, inCode))
  {
    if a == "" {
      assert a + b == b;
    } else {
      CodeAfterConcat(a[1..], b, Next(a[0], inCode));
      assert (a + b)[1..] == a[1..] + b;
    }
  }

  /** A code span between backtick strings of any length: it stays as it is exactly if every special
      character in it follows an odd number of backticks, counted from the start of the text. */
  lemma CodeSpan(before: string, ticks: string, code: string, after: string)
    requires IsRun(ticks)
    ensures var inside := CodeAfter(before + ticks, false);
            && inside == (CodeAfter(before, false) != (|ticks| % 2 == 1))
            && Escaped(before + ticks + code + ticks + after, false)
               == Escaped(before, false) + ticks + Escaped(code, inside) + ticks
                  + Escaped(after, CodeAfter(before + code, false))
            && (Escaped(code, inside) == code
                <==> forall i :: 0 <= i < |code| && code[i] in SPECIAL ==> CodeAfter(code[..i], inside))
  {
    var t := CodeAfter(before, false);
    var inside := CodeAfter(ticks, t);
    CodeAfterConcat(before, ticks, false);
    CodeAfterConcat(before, code, false);
    CodeAfterConcat(before + ticks, code, false);
    CodeAfterConcat(before + ticks + code, ticks, false);
    RunIsKept(ticks, t);
    RunIsKept(ticks, CodeAfter(code, inside));
    CodeAfterFlips(code, t);
    EscapedConcat(before + ticks + code + ticks, after, false);
    EscapedConcat(before + ticks + code, ticks, false);
    EscapedConcat(before + ticks, code, false);
    EscapedConcat(before, ticks, false);
    KeptIf(code, inside);
  }

  lemma {:induction false} NoBackticks(code: string, inCode: bool)
    requires '`' !in code
    ensures CodeAfter(code, inCode) == inCode
  {
    if code != "" {
      NoBackticks(code[1..], inCode);
    }
  }

  /** A code span without backticks inside is left as it is if its backtick strings have an odd
      length, as they have when they are single. */
  lemma CodeSpanVerbatim(before: string, ticks: string, code: string, after: string)
    requires !CodeAfter(before, false) && '`' !in code
    requires IsRun(ticks) && |ticks| % 2 == 1
    ensures Escaped(before + ticks + code + ticks + after, false)
            == Escaped(before, false) + ticks + code + ticks + Escaped(after, false)
  {
    CodeSpan(before, ticks, code, after);
    CodeAfterConcat(before, code, false);
    NoBackticks(code, false);
    forall i | 0 <= i < |code|
      ensures CodeAfter(code[..i], true)
    {
      NoBackticks(code[..i], true);
    }
  }

  function Backticks(s: string): string {
    if s == "" then "" else (if s[0] == '`' then [s[0]] else "") + Backticks(s[1..])
  }

  lemma {:induction false} BackticksKept(s: string, inCode: bool)
    ensures Backticks(Escaped(s, inCode)) == Backticks(s)
  {
    if s != "" {
      BackticksKept(s[1..], Next(s[0], inCode));
      var e := Escaped(s, inCode);
      if s[0] in SPECIAL && !inCode {
        assert e[1..][1..] == Escaped(s[1..], inCode);
      } else {
        assert e[1..] == Escaped(s[1..], Next(s[0], inCode));
      }
    }
  }

  lemma {:induction false} BackticksKeptByPipes(s: string)
    ensures Backticks(PipesEscaped(s)) == Backticks(s)
  {
    if s != "" {
      BackticksKeptByPipes(s[1..]);
      var p := PipesEscaped(s);
      if s[0] == '|' {
        assert p[1..][1..] == PipesEscaped(s[1..]);
      } else {
        assert p[1..] == PipesEscaped(s[1..]);
      }
    }
  }

  /** The backticks of a text or a cell are those of the value, whichever of them delimit code. */
  lemma CellBackticks(value: string)
    ensures Backticks(Cell(value)) == Backticks(Escaped(value, false)) == Backticks(value)
  {
    BackticksKept(value, false);
    BackticksKeptByPipes(Escaped(value, false));
  }

  /** Every special character not taken for code directly follows a backslash, and so does every pipe
      when `pipes` is set; `prev` is the character before the text. */
  predicate Preceded(s: string, inCode: bool, pipes: bool, prev: char) {
    s != "" ==>
      && (s[0] in SPECIAL && !inCode ==> prev == '\\')
      && (s[0] == '|' && pipes ==> prev == '\\')
      && Preceded(s[1..], Next(s[0], inCode), pipes, s[0])
  }

  lemma {:induction false} EscapedIsPreceded(s: string, inCode: bool, prev: char)
    ensures Preceded(Escaped(s, inCode), inCode, false, prev)
  {
    if s != "" {
      var e := Escaped(s, inCode);
      if s[0] in SPECIAL && !inCode {
        EscapedIsPreceded(s[1..], inCode, s[0]);
        assert e[1..][1..] == Escaped(s[1..], inCode);
      } else {
        EscapedIsPreceded(s[1..], Next(s[0], inCode), s[0]);
        assert e[1..] == Escaped(s[1..], Next(s[0], inCode));
      }
    }
  }

  lemma {:induction false} PipesArePreceded(s: string, inCode: bool, prev: char)
    requires Preceded(s, inCode, false, prev)
    ensures Preceded(PipesEscaped(s), inCode, true, prev)
  {
    if s != "" {
      var p := PipesEscaped(s);
      PipesArePreceded(s[1..], Next(s[0], inCode), s[0]);
      if s[0] == '|' {
        assert p[1..][1..] == PipesEscaped(s[1..]);
      } else {
        assert p[1..] == PipesEscaped(s[1..]);
      }
    }
  }

  lemma {:induction false} PrecededAt(s: string, inCode: bool, pipes: bool, prev: char, i: nat)
    requires Preceded(s, inCode, pipes, prev) && i < |s|
    requires (s[i] in SPECIAL && !CodeAfter(s[..i], inCode)) || (s[i] == '|' && pipes)
    ensures (if i == 0 then prev else s[i - 1]) == '\\'
  {
    if i > 0 {
      assert s[1..][..i - 1] == s[..i][1..];
      PrecededAt(s[1..], Next(s[0], inCode), pipes, s[0], i - 1);
    }
  }

  /** A character at `i` before which a backslash is inserted: a special one not taken for code, or
      for table rows a pipe. */
  predicate Active(s: string, inCode: bool, pipes: bool, i: nat)
    requires i < |s|
  {
    (s[i] in SPECIAL && !CodeAfter(s[..i], inCode)) || (pipes && s[i] == '|')
  }

  /** Before each special character of the value not taken for code stands an inserted backslash,
      and nowhere else is one inserted. */
  lemma InsertedBefore(value: string, j: nat)
    requires j < |value|
    ensures var before := Escaped(value[..j], false);
            && before <= Escaped(value, false)
            && Escaped(value, false)[|before|..]
               == (if Active(value, false, false, j) then ['\\', value[j]] else [value[j]])
                  + Escaped(value[j + 1..], CodeAfter(value[..j + 1], false))
  {
    var before, c, after := value[..j], [value[j]], value[j + 1..];
    assert value == before + (c + after) && value[..j + 1] == before + c && (c + after)[1..] == after;
    EscapedConcat(before, c + after, false);
    CodeAfterConcat(before, c, false);
    assert CodeAfter(c, CodeAfter(before, false)) == Next(value[j], CodeAfter(before, false));
  }

  method Text(value: string) returns (out: string)
    ensures out == Escaped(value, false)
  {
    out := "";
    var inCode := false;
    for i := 0 to |value|
      invariant out == Escaped(value[..i], false)
      invariant inCode == CodeAfter(value[..i], false)
    {
      var c := value[i];
      assert value[..i + 1] == value[..i] + [c];
      EscapedConcat(value[..i], [c], false);
      CodeAfterConcat(value[..i], [c], false);
      if c == '`' {
        inCode := !inCode;
        out := out + [c];
      } else if c in SPECIAL && !inCode {
        out := out + ['\\'];
        out := out + [c];
      } else {
        out := out + [c];
      }
    }
    assert value[..|value|] == value;
  }
}
