/** Splitting a documented command line into words, as a shell would for simple lines: quotes
    group, and a comment, redirection or pipe word ends the command. */
module ShellWords {
  import opened Characters
  import opened Sequences
  import opened Wrappers

  const QUOTES: set<char> := {'\'', '"'}
  const ENDS: set<string> := {"#", ">", "<", "|"}

  datatype Scanner = Scanner(words: seq<string>, word: string, quote: Option<char>, started: bool)

  const START := Scanner([], "", None, false)

  function Feed(s: Scanner, c: char): Scanner {
    if s.quote == Some(c) then s.(quote := None)
    else if s.quote.Some? then s.(word := s.word + [c])
    else if c in QUOTES then s.(quote := Some(c), started := true)
    else if IsWhitespace(c) then
      if s.started then Scanner(s.words + [s.word], "", None, false) else s
    else s.(word := s.word + [c], started := true)
  }

  function FeedAll(s: Scanner, text: string): Scanner
    decreases text
  {
    if text == "" then s else FeedAll(Feed(s, text[0]), text[1..])
  }

  function Finish(s: Scanner): seq<string> {
    if s.started then s.words + [s.word] else s.words
  }

  /** The words before the first one that ends the command. */
  function Cut(words: seq<string>): (kept: seq<string>)
    ensures kept <= words
    ensures forall i :: 0 <= i < |kept| ==> words[i] !in ENDS
    ensures |kept| < |words| ==> words[|kept|] in ENDS
  {
    if words == [] || words[0] in ENDS then [] else [words[0]] + Cut(words[1..])
  }

  method Words(line: string) returns (words: seq<string>)
    ensures words == Cut(Finish(FeedAll(START, line)))
  {
    words := [];
    var word, quote, started := "", None, false;
    for i := 0 to |line|
      invariant FeedAll(Scanner(words, word, quote, started), line[i..]) == FeedAll(START, line)
    {
      var c := line[i];
      ghost var before := Scanner(words, word, quote, started);
      if quote == Some(c) {
        quote := None;
      } else if quote.Some? {
        word := word + [c];
      } else if c in QUOTES {
        quote, started := Some(c), true;
      } else if IsWhitespace(c) {
        if started {
          words, word, started := words + [word], "", false;
        }
      } else {
        word, started := word + [c], true;
      }
      assert Scanner(words, word, quote, started) == Feed(before, c);
      assert line[i..][0] == c && line[i..][1..] == line[i + 1..];
    }
    if started {
      words := words + [word];
    }
    words := UpToEnd(words);
  }

  method UpToEnd(words: seq<string>) returns (kept: seq<string>)
    ensures kept == Cut(words)
  {
    var end := 0;
    while end < |words| && words[end] !in ENDS
      invariant end <= |words|
      invariant forall i :: 0 <= i < end ==> words[i] !in ENDS
    {
      end := end + 1;
    }
    kept := words[..end];
  }

  // ----- Writing lines -----

  /** A stretch of a word as it is typed: bare, or between quotation marks. */
  datatype Piece = Bare(text: string) | Quoted(mark: char, text: string) {
    predicate Valid() {
      match this
      case Bare(text) => text != "" && forall c :: c in text ==> c !in QUOTES && !IsWhitespace(c)
      case Quoted(mark, text) => mark in QUOTES && mark !in text
    }

    function Typed(): string {
      match this
      case Bare(text) => text
      case Quoted(mark, text) => [mark] + text + [mark]
    }
  }

  /** A word as it is typed, and the blank space after it. */
  datatype Item = Item(pieces: seq<Piece>, gap: string)

  predicate Blank(s: string) {
    forall c :: c in s ==> IsWhitespace(c)
  }

  ghost predicate ValidItems(items: seq<Item>) {
    forall i :: 0 <= i < |items| ==>
      && items[i].pieces != []
      && (forall p :: p in items[i].pieces ==> p.Valid())
      && Blank(items[i].gap)
      && (i < |items| - 1 ==> items[i].gap != "")
  }

  function TypedPieces(pieces: seq<Piece>): string {
    if pieces == [] then "" else pieces[0].Typed() + TypedPieces(pieces[1..])
  }

  function TypedItems(items: seq<Item>): string {
    if items == [] then "" else TypedPieces(items[0].pieces) + items[0].gap + TypedItems(items[1..])
  }

  /** The word the pieces stand for. */
  function Meaning(pieces: seq<Piece>): string {
    if pieces == [] then "" else pieces[0].text + Meaning(pieces[1..])
  }

  function Meanings(items: seq<Item>): seq<string> {
    if items == [] then [] else [Meaning(items[0].pieces)] + Meanings(items[1..])
  }

  lemma {:induction false} FeedConcat(s: Scanner, a: string, b: string)
    decreases a
    ensures FeedAll(s, a + b) == FeedAll(FeedAll(s, a), b)
  {
    if a == "" {
      assert a + b == b;
    } else {
      Tail(a, b);
      FeedConcat(Feed(s, a[0]), a[1..], b);
    }
  }

  /** Text without the closing mark is taken over as it is. */
  lemma {:induction false} FeedQuoted(s: Scanner, text: string)
    requires s.quote.Some? && s.quote.value !in text
    decreases text
    ensures FeedAll(s, text) == s.(word := s.word + text)
  {
    if text == "" {
      assert s.word + text == s.word;
    } else {
      FeedQuoted(Feed(s, text[0]), text[1..]);
      Assoc(s.word, [text[0]], text[1..]);
      assert [text[0]] + text[1..] == text;
    }
  }

  lemma {:induction false} FeedBare(s: Scanner, text: string)
    requires s.quote.None? && Bare(text).Valid()
    decreases text
    ensures FeedAll(s, text) == s.(word := s.word + text, started := true)
  {
    var next := Feed(s, text[0]);
    if |text| == 1 {
      assert text[1..] == "" && [text[0]] == text;
    } else {
      FeedBare(next, text[1..]);
      Assoc(s.word, [text[0]], text[1..]);
      assert [text[0]] + text[1..] == text;
    }
  }

  lemma {:induction false} FeedBlank(s: Scanner, gap: string)
    decreases gap
    requires s.quote.None? && !s.started && Blank(gap)
    ensures FeedAll(s, gap) == s
  {
    if gap != "" {
      FeedBlank(s, gap[1..]);
    }
  }

  lemma FeedPiece(s: Scanner, p: Piece, rest: string)
    requires s.quote.None? && p.Valid()
    ensures FeedAll(s, p.Typed() + rest) == FeedAll(s.(word := s.word + p.text, started := true), rest)
  {
    FeedConcat(s, p.Typed(), rest);
    match p
    case Bare(text) => FeedBare(s, text);
    case Quoted(mark, text) =>
      var inside := Feed(s, mark);
      FeedConcat(s, [mark] + text, [mark]);
      FeedConcat(s, [mark], text);
      FeedQuoted(inside, text);
      assert FeedAll(s, [mark]) == inside;
      assert FeedAll(inside.(word := s.word + text), [mark]) == s.(word := s.word + text, started := true);
  }

  lemma {:induction false} FeedPieces(s: Scanner, pieces: seq<Piece>)
    requires s.quote.None? && forall p :: p in pieces ==> p.Valid()
    ensures FeedAll(s, TypedPieces(pieces))
            == s.(word := s.word + Meaning(pieces), started := s.started || pieces != [])
    decreases pieces
  {
    if pieces == [] {
      assert s.word + "" == s.word;
    } else {
      var p, rest := pieces[0], pieces[1..];
      FeedPiece(s, p, TypedPieces(rest));
      FeedPieces(s.(word := s.word + p.text, started := true), rest);
      Assoc(s.word, p.text, Meaning(rest));
    }
  }

  lemma FeedItem(s: Scanner, item: Item)
    requires s.quote.None? && !s.started && s.word == ""
    requires ValidItems([item])
    ensures var after := FeedAll(s, TypedPieces(item.pieces) + item.gap);
            after == if item.gap == "" then s.(word := Meaning(item.pieces), started := true)
                     else s.(words := s.words + [Meaning(item.pieces)])
  {
    assert [item][0] == item;
    FeedConcat(s, TypedPieces(item.pieces), item.gap);
    FeedPieces(s, item.pieces);
    assert "" + Meaning(item.pieces) == Meaning(item.pieces);
    if item.gap != "" {
      assert IsWhitespace(item.gap[0]);
      var typed := s.(word := Meaning(item.pieces), started := true);
      var pushed := Feed(typed, item.gap[0]);
      FeedBlank(pushed, item.gap[1..]);
    }
  }

  lemma {:induction false} FeedItems(s: Scanner, items: seq<Item>)
    decreases items
    requires s.quote.None? && !s.started && s.word == ""
    requires ValidItems(items)
    ensures Finish(FeedAll(s, TypedItems(items))) == s.words + Meanings(items)
  {
    if items == [] {
      assert s.words + [] == s.words;
    } else {
      var item, rest := items[0], items[1..];
      FeedItem(s, item);
      FeedConcat(s, TypedPieces(item.pieces) + item.gap, TypedItems(rest));
      if rest == [] {
        assert TypedItems(rest) == "" && Meanings(items) == [Meaning(item.pieces)];
      } else {
        FeedItems(s.(words := s.words + [Meaning(item.pieces)]), rest);
        Assoc(s.words, [Meaning(item.pieces)], Meanings(rest));
      }
    }
  }

  /** However a list of words is typed (bare and quoted stretches in any mix, any blank space
      before, between and after the words), splitting the line gives the list back, up to its
      first comment, redirection or pipe word. */
  lemma SplitTyped(lead: string, items: seq<Item>)
    requires Blank(lead) && ValidItems(items)
    ensures Cut(Finish(FeedAll(START, lead + TypedItems(items)))) == Cut(Meanings(items))
  {
    FeedConcat(START, lead, TypedItems(items));
    FeedBlank(START, lead);
    FeedItems(START, items);
    assert [] + Meanings(items) == Meanings(items);
  }

  /** A way to type any word at all, the empty one and those with both marks in them included. */
  function Quote(word: string): seq<Piece> {
    if word == "" then [Quoted('\'', "")]
    else [Quoted(if word[0] == '\'' then '"' else '\'', [word[0]])] + if |word| == 1 then [] else Quote(word[1..])
  }

  lemma {:induction false} QuoteMeans(word: string)
    ensures Quote(word) != [] && forall p :: p in Quote(word) ==> p.Valid()
    ensures Meaning(Quote(word)) == word
  {
    if |word| == 1 {
      assert [word[0]] == word && Quote(word)[1..] == [];
      assert Meaning(Quote(word)) == word + "";
    } else if |word| > 1 {
      QuoteMeans(word[1..]);
      assert Quote(word)[1..] == Quote(word[1..]);
      assert [word[0]] + word[1..] == word;
    }
  }

  function QuoteAll(words: seq<string>): seq<Item> {
    if words == [] then [] else [Item(Quote(words[0]), " ")] + QuoteAll(words[1..])
  }

  /** Every list of words has a line that splits into it. */
  lemma {:induction false} EveryListCanBeTyped(words: seq<string>)
    ensures ValidItems(QuoteAll(words)) && Meanings(QuoteAll(words)) == words
  {
    if words != [] {
      QuoteMeans(words[0]);
      EveryListCanBeTyped(words[1..]);
    }
  }
}
