/** The function name generated for a message key: camelCase to snake_case, with names Rust
    reserves or could not start an identifier with made usable. */
module MessageNames {
  import opened Characters
  import opened Sequences
  import opened Wrappers

  const KEYWORDS: set<string> := {
    "as", "async", "await", "box", "break", "const", "continue", "crate", "dyn", "else", "enum",
    "extern", "false", "fn", "for", "gen", "if", "impl", "in", "let", "loop", "match", "mod",
    "move", "mut", "pub", "ref", "return", "self", "static", "struct", "super", "trait", "true",
    "try", "type", "unsafe", "use", "where", "while", "yield"
  }

  predicate IsKeyChar(c: char) {
    IsAlphanumeric(c) || c == '_'
  }

  function Piece(c: char, first: bool): string {
    if IsUpper(c) && !first then ['_', ToLower(c)] else [ToLower(c)]
  }

  function Spelled(name: string, first: bool): string {
    if name == "" then "" else Piece(name[0], first) + Spelled(name[1..], false)
  }

  function Usable(out: string): string {
    var started := if out != "" && IsDigit(out[0]) then "_" + out else out;
    if started in KEYWORDS then "r#" + started else started
  }

  /** The generated name, or None where the build stops: a key that is not ASCII camelCase. */
  function Snake(name: string): Option<string> {
    if forall c :: c in name ==> IsKeyChar(c) then Some(Usable(Spelled(name, true))) else None
  }

  method SnakeCase(name: string) returns (result: Option<string>)
    ensures result == Snake(name)
  {
    var out := "";
    for i := 0 to |name|
      invariant forall j :: 0 <= j < i ==> IsKeyChar(name[j])
      invariant out + Spelled(name[i..], i == 0) == Spelled(name, true)
    {
      var c := name[i];
      assert name[i..][0] == c && name[i..][1..] == name[i + 1..];
      Assoc(out, Piece(c, i == 0), Spelled(name[i + 1..], false));
      if IsUpper(c) {
        ghost var before := out;
        if i > 0 {
          out := out + ['_'];
        }
        out := out + [ToLower(c)];
        assert out == before + Piece(c, i == 0);
      } else if IsAlphanumeric(c) || c == '_' {
        out := out + [c];
      } else {
        assert c in name;
        return None;
      }
    }
    assert out + Spelled(name[|name|..], false) == out;
    assert |name| == 0 ==> out == "";
    if out != "" && IsDigit(out[0]) {
      out := "_" + out;
    }
    if out in KEYWORDS {
      return Some("r#" + out);
    }
    return Some(out);
  }

  // ----- Reading names back -----

  /** Names as the catalogs write them: no underscore, no leading capital. */
  predicate IsCamelCase(name: string) {
    && (forall c :: c in name ==> IsAlphanumeric(c))
    && (name != "" ==> !IsUpper(name[0]))
  }

  function ToUpper(c: char): char {
    if IsLower(c) then (c as int - 32) as char else c
  }

  function Joined(out: string): string {
    if out == "" then ""
    else if out[0] == '_' && |out| > 1 then [ToUpper(out[1])] + Joined(out[2..])
    else [out[0]] + Joined(out[1..])
  }

  function Camel(out: string): string {
    var started := if |out| >= 2 && out[..2] == "r#" then out[2..] else out;
    Joined(if |started| >= 2 && started[0] == '_' && IsDigit(started[1]) then started[1..] else started)
  }

  lemma {:induction false} JoinedSpelled(name: string, first: bool)
    requires forall c :: c in name ==> IsAlphanumeric(c)
    requires first && name != "" ==> !IsUpper(name[0])
    ensures Joined(Spelled(name, first)) == name
  {
    if name != "" {
      var out := Spelled(name, first);
      JoinedSpelled(name[1..], false);
      assert name[0] in name && [name[0]] + name[1..] == name;
      if IsUpper(name[0]) {
        assert out[2..] == Spelled(name[1..], false);
      } else {
        assert out[1..] == Spelled(name[1..], false);
      }
    }
  }

  /** A camelCase name can be read back from the name generated for it. */
  lemma SnakeRoundTrip(name: string)
    requires IsCamelCase(name)
    ensures Snake(name).Some? && Camel(Snake(name).value) == name
  {
    hide Joined;
    var out := Spelled(name, true);
    JoinedSpelled(name, true);
    if name != "" {
      assert out[0] == name[0] && name[0] in name;
      assert IsDigit(out[0]) ==> ("_" + out)[1..] == out;
      var started := if IsDigit(out[0]) then "_" + out else out;
      assert ("r#" + started)[..2] == "r#" && ("r#" + started)[2..] == started;
      assert |started| >= 2 ==> started[1] != '#' by {
        if |name| > 1 {
          assert name[1] in name;
          assert out[1] == if IsUpper(name[1]) then '_' else name[1];
        }
      }
    }
  }

  /** So different camelCase names never get the same function. */
  lemma SnakeInjective(a: string, b: string)
    requires IsCamelCase(a) && IsCamelCase(b) && Snake(a) == Snake(b)
    ensures a == b
  {
    SnakeRoundTrip(a);
    SnakeRoundTrip(b);
  }

  // ----- What the names can be used for -----

  lemma NoKeywordIsRaw(out: string)
    requires |out| >= 2 && out[1] == '#'
    ensures out !in KEYWORDS
  {
  }

  /** A name is generated exactly for keys of letters, digits and underscores, and Rust takes it for a
      function's: it is no reserved word and does not start with a digit. */
  lemma SnakeIsUsable(name: string)
    ensures Snake(name).Some? <==> forall c :: c in name ==> ('a' <= c <= 'z' || 'A' <= c <= 'Z' || '0' <= c <= '9' || c == '_')
    ensures Snake(name).Some? ==> Snake(name).value !in KEYWORDS
    ensures Snake(name).Some? && Snake(name).value != "" ==> !('0' <= Snake(name).value[0] <= '9')
  {
    hide Spelled;
    if Snake(name).Some? {
      var out := Spelled(name, true);
      var started := if out != "" && IsDigit(out[0]) then "_" + out else out;
      if started in KEYWORDS {
        assert ("r#" + started)[1] == '#' && ("r#" + started)[0] == 'r';
        NoKeywordIsRaw("r#" + started);
      }
    }
  }

  // ----- Which keys share a function -----

  lemma {:induction false} SpelledPlain(name: string, first: bool)
    requires forall c :: c in name ==> IsKeyChar(c)
    ensures forall c :: c in Spelled(name, first) ==> c != '#'
  {
    if name != "" {
      assert name[0] in name;
      SpelledPlain(name[1..], false);
    }
  }

  /** The spelled name as an identifier can start. */
  function Begun(out: string): string {
    if out != "" && IsDigit(out[0]) then "_" + out else out
  }

  lemma UsableInjective(a: string, b: string)
    requires (forall c :: c in a ==> c != '#') && (forall c :: c in b ==> c != '#')
    ensures Usable(a) == Usable(b) <==> Begun(a) == Begun(b)
  {
    var x, y := Begun(a), Begun(b);
    assert forall c :: c in x ==> c != '#';
    assert forall c :: c in y ==> c != '#';
    assert ("r#" + x)[2..] == x && ("r#" + y)[2..] == y && ("r#" + x)[1] == '#' && ("r#" + y)[1] == '#';
    assert |y| > 1 ==> y[1] in y;
    assert |x| > 1 ==> x[1] in x;
  }

  /** Two keys share a function exactly when they are spelled the same in lower case with an
      underscore before each inner capital, or differ by the underscore put before a digit. */
  lemma SnakeCollide(a: string, b: string)
    requires (forall c :: c in a ==> IsKeyChar(c)) && (forall c :: c in b ==> IsKeyChar(c))
    ensures var x, y := Spelled(a, true), Spelled(b, true);
            Snake(a) == Snake(b) <==>
              || x == y
              || (x != "" && IsDigit(x[0]) && y == "_" + x)
              || (y != "" && IsDigit(y[0]) && x == "_" + y)
  {
    var x, y := Spelled(a, true), Spelled(b, true);
    SpelledPlain(a, true);
    SpelledPlain(b, true);
    UsableInjective(x, y);
    assert ("_" + x)[1..] == x && ("_" + y)[1..] == y;
  }

  /** Without either half of camelCase they can: an underscore or a leading capital is enough. */
  lemma SnakeCollisions()
    ensures Snake("aB").Some? && Snake("aB") == Snake("a_b")
    ensures Snake("Ab").Some? && Snake("Ab") == Snake("ab")
  {
    assert "aB"[1..] == "B" && "a_b"[1..] == "_b" && "_b"[1..] == "b";
    assert "Ab"[1..] == "b" && "ab"[1..] == "b" && "B"[1..] == "" && "b"[1..] == "";
    assert Spelled("B", false) == "_b" && Spelled("b", false) == "b";
    assert Spelled("_b", false) == "_b";
    assert Spelled("aB", true) == "a_b" == Spelled("a_b", true);
    assert Spelled("Ab", true) == "ab" == Spelled("ab", true);
  }
}
