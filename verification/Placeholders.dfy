/** The placeholders of a message: the names in braces, in order of first appearance. */
module Placeholders {
  import opened Characters
  import opened Histories
  import opened Sequences

  /** The position of the first `c` in `s`, or |s|. */
  function Find(s: string, c: char): (i: nat)
    ensures i <= |s| && c !in s[..i]
    ensures i < |s| ==> s[i] == c
  {
    if s == "" || s[0] == c then 0 else 1 + Find(s[1..], c)
  }

  /** What stands between each opening brace and the next closing one. */
  function Holes(text: string): seq<string>
    decreases |text|, 1
  {
    var start := Find(text, '{');
    if start == |text| then [] else HolesInside(text[start + 1..])
  }

  function HolesInside(after: string): seq<string>
    decreases |after|, 2
  {
    var end := Find(after, '}');
    if end == |after| then [] else [after[..end]] + Holes(after[end + 1..])
  }

  predicate IsName(s: string) {
    s != "" && forall c :: c in s ==> IsAlphanumeric(c)
  }

  /** The names among the holes, each at its first appearance. */
  function Names(holes: seq<string>): seq<string> {
    if holes == [] then []
    else
      var before := Names(Init(holes));
      if IsName(Last(holes)) && Last(holes) !in before then before + [Last(holes)] else before
  }

  method Scan(text: string) returns (out: seq<string>)
    ensures out == Names(Holes(text))
  {
    out := [];
    ghost var holes := [];
    var rest := text;
    var start := Find(rest, '{');
    while start < |rest|
      invariant start == Find(rest, '{')
      invariant holes + Holes(rest) == Holes(text)
      invariant out == Names(holes)
      decreases |rest|
    {
      var after := rest[start + 1..];
      var end := Find(after, '}');
      if end == |after| {
        break;
      }
      var name := after[..end];
      if IsName(name) && name !in out {
        out := out + [name];
      }
      Push(holes, name);
      Assoc(holes, [name], Holes(after[end + 1..]));
      holes := holes + [name];
      rest := after[end + 1..];
      start := Find(rest, '{');
    }
    assert holes + [] == holes;
  }

  // ----- Printing -----

  datatype Part = Literal(text: string) | Hole(text: string) {
    predicate Valid() {
      match this
      case Literal(text) => '{' !in text
      case Hole(text) => '}' !in text
    }

    function Print(): string {
      match this
      case Literal(text) => text
      case Hole(text) => "{" + text + "}"
    }
  }

  function PrintAll(parts: seq<Part>): string {
    if parts == [] then "" else parts[0].Print() + PrintAll(parts[1..])
  }

  function OwnHole(p: Part): seq<string> {
    if p.Hole? then [p.text] else []
  }

  function HoleTexts(parts: seq<Part>): seq<string> {
    if parts == [] then []
    else OwnHole(parts[0]) + HoleTexts(parts[1..])
  }

  /** An opening brace nothing closes ends the scan. */
  predicate Unclosed(tail: string) {
    tail != "" ==> tail[0] == '{' && '}' !in tail
  }

  lemma {:induction false} FindPast(a: string, b: string, c: char)
    requires c !in a
    ensures Find(a + b, c) == |a| + Find(b, c)
  {
    if a == "" {
      assert a + b == b;
    } else {
      Tail(a, b);
      FindPast(a[1..], b, c);
    }
  }

  lemma HolesPastLiteral(literal: string, rest: string)
    requires '{' !in literal
    ensures Holes(literal + rest) == Holes(rest)
  {
    FindPast(literal, rest, '{');
    var start := Find(rest, '{');
    if start < |rest| {
      Drop(literal, rest, start + 1);
    }
  }

  lemma HolesPastHole(name: string, rest: string)
    requires '}' !in name
    ensures Holes("{" + (name + ("}" + rest))) == [name] + Holes(rest)
  {
    var after := name + ("}" + rest);
    Tail("{", after);
    FindPast(name, "}" + rest, '}');
    assert after[..|name|] == name && after[|name| + 1..] == rest;
  }

  lemma NoHoleUnclosed(tail: string)
    requires Unclosed(tail)
    ensures Holes(tail) == []
  {
    if tail != "" {
      assert tail == [tail[0]] + tail[1..];
      assert '}' !in tail[1..];
    }
  }

  lemma HolesPastPart(p: Part, rest: string)
    requires p.Valid()
    ensures Holes(p.Print() + rest) == OwnHole(p) + Holes(rest)
  {
    hide Holes;
    if p.Hole? {
      HolesPastHole(p.text, rest);
      assert p.Print() + rest == "{" + (p.text + ("}" + rest));
    } else {
      HolesPastLiteral(p.text, rest);
      assert [] + Holes(rest) == Holes(rest);
    }
  }

  /** The scan finds exactly the holes that were printed, in order: literals may hold closing
      braces, holes opening ones, and an unclosed brace at the end adds nothing. */
  lemma {:induction false} HolesOfPrinted(parts: seq<Part>, tail: string)
    requires (forall p :: p in parts ==> p.Valid()) && Unclosed(tail)
    ensures Holes(PrintAll(parts) + tail) == HoleTexts(parts)
  {
    if parts == [] {
      assert PrintAll(parts) + tail == tail;
      NoHoleUnclosed(tail);
    } else {
      assert parts[0].Valid();
      HolesOfPrinted(parts[1..], tail);
      HolesPastPart(parts[0], PrintAll(parts[1..]) + tail);
      Assoc(parts[0].Print(), PrintAll(parts[1..]), tail);
    }
  }

  /** The parts of a text, and what is left once no more hole is closed. */
  function Parts(text: string): (r: (seq<Part>, string))
    ensures (forall p :: p in r.0 ==> p.Valid()) && Unclosed(r.1)
    decreases |text|
  {
    var start := Find(text, '{');
    var before := Literal(text[..start]);
    if start == |text| then ([before], "")
    else
      var after := text[start + 1..];
      var end := Find(after, '}');
      if end == |after| then
        assert text[start..] == ['{'] + after && after[..end] == after;
        ([before], text[start..])
      else
        var rest := Parts(after[end + 1..]);
        ([before] + ([Hole(after[..end])] + rest.0), rest.1)
  }

  lemma PrintCons(p: Part, parts: seq<Part>)
    ensures PrintAll([p] + parts) == p.Print() + PrintAll(parts)
  {
    Tail([p], parts);
  }

  lemma PrintedPair(p: Part, q: Part, parts: seq<Part>, tail: string)
    ensures PrintAll([p] + ([q] + parts)) + tail == p.Print() + (q.Print() + (PrintAll(parts) + tail))
  {
    PrintCons(p, [q] + parts);
    PrintCons(q, parts);
    Assoc(q.Print(), PrintAll(parts), tail);
    Assoc(p.Print(), q.Print() + PrintAll(parts), tail);
  }

  lemma SplitAtBraces(text: string, start: nat, end: nat)
    requires start < |text| && text[start] == '{'
    requires end < |text[start + 1..]| && text[start + 1..][end] == '}'
    ensures var after := text[start + 1..];
            text == text[..start] + (("{" + after[..end] + "}") + after[end + 1..])
  {
    var after := text[start + 1..];
    assert after == after[..end] + "}" + after[end + 1..];
    assert text == text[..start] + "{" + after;
  }

  /** Every text whatever is some printed list of parts, so the scan is known on all of them. */
  lemma {:induction false} EveryTextIsPrinted(text: string)
    ensures PrintAll(Parts(text).0) + Parts(text).1 == text
    decreases |text|
  {
    var start := Find(text, '{');
    if start == |text| || Find(text[start + 1..], '}') == |text[start + 1..]| {
      PrintCons(Literal(text[..start]), []);
      assert [Literal(text[..start])] + [] == [Literal(text[..start])];
      assert text[..start] + text[start..] == text;
    } else {
      var after := text[start + 1..];
      var end := Find(after, '}');
      EveryTextIsPrinted(after[end + 1..]);
      SplitAtBraces(text, start, end);
      PrintedPair(Literal(text[..start]), Hole(after[..end]), Parts(after[end + 1..]).0, Parts(after[end + 1..]).1);
    }
  }

  // ----- First appearances -----

  /** The names come out without duplicates, all of them, each before those that first appear
      after it. */
  lemma {:induction false} FirstAppearances(holes: seq<string>)
    ensures var names := Names(holes);
            && (forall i, j :: 0 <= i < j < |names| ==> names[i] != names[j])
            && (forall n :: n in names <==> n in holes && IsName(n))
  {
    if holes != [] {
      FirstAppearances(Init(holes));
      assert holes == Init(holes) + [Last(holes)];
    }
  }

  /** What stands between braces is a placeholder's name exactly if it is made of ASCII letters and digits,
      at least one. */
  lemma NameOrNot(holes: seq<string>, name: string)
    requires name in holes
    ensures name in Names(holes)
            <==> name != "" && forall i :: 0 <= i < |name| ==>
                   '0' <= name[i] <= '9' || 'A' <= name[i] <= 'Z' || 'a' <= name[i] <= 'z'
  {
    FirstAppearances(holes);
    assert forall i :: 0 <= i < |name| ==> name[i] in name;
  }

  lemma {:induction false} NamesInOrder(holes: seq<string>, i: nat, j: nat, k: nat)
    requires i < j < |Names(holes)| && k < |holes| && holes[k] == Names(holes)[j]
    ensures Names(holes)[i] in holes[..k]
  {
    var before := Init(holes);
    FirstAppearances(before);
    if j < |Names(before)| {
      if k < |before| {
        NamesInOrder(before, i, j, k);
        assert before[..k] == holes[..k];
      } else {
        assert holes[..k] == before && Names(before)[i] in before;
      }
    } else {
      assert k == |before| by {
        assert Last(holes) !in Names(before) && IsName(Last(holes));
        assert Last(holes) !in before;
        assert forall m :: 0 <= m < |before| ==> holes[m] in before;
      }
      assert holes[..k] == before && Names(before)[i] in before;
    }
  }
}
