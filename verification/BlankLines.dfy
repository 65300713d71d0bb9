/** The end of rendering the reference page: no runs of blank lines, one trailing newline. */
module BlankLines {
  import opened Characters
  import opened Sequences

  predicate StartsTriple(s: string) {
    |s| >= 3 && s[0] == '\n' && s[1] == '\n' && s[2] == '\n'
  }

  predicate HasTriple(s: string) {
    s != "" && (StartsTriple(s) || HasTriple(s[1..]))
  }

  /** One left-to-right pass replacing three newlines by two, never looking back. */
  function Replaced(s: string): string {
    if s == "" then ""
    else if StartsTriple(s) then "\n" + ("\n" + Replaced(s[3..]))
    else [s[0]] + Replaced(s[1..])
  }

  /** How many newlines the text starts with. */
  function Lead(s: string): (n: nat)
    ensures n <= |s| && forall i :: 0 <= i < n ==> s[i] == '\n'
    ensures n < |s| ==> s[n] != '\n'
  {
    if s != "" && s[0] == '\n' then 1 + Lead(s[1..]) else 0
  }

  /** Every maximal run of three or more newlines shortened to exactly two, the rest kept. */
  function Squeezed(s: string): string {
    if s == "" then ""
    else if s[0] == '\n' then
      var n := Lead(s);
      s[..if n > 2 then 2 else n] + Squeezed(s[n..])
    else [s[0]] + Squeezed(s[1..])
  }

  lemma {:induction false} ReplacedShortens(s: string)
    ensures |Replaced(s)| <= |s|
    ensures HasTriple(s) ==> |Replaced(s)| < |s|
  {
    if s != "" {
      if StartsTriple(s) {
        ReplacedShortens(s[3..]);
      } else {
        ReplacedShortens(s[1..]);
      }
    }
  }

  /** The same in one pass: a newline is dropped when two were kept just before it. */
  function Filtered(s: string, kept: nat): string {
    if s == "" then ""
    else if s[0] != '\n' then [s[0]] + Filtered(s[1..], 0)
    else if kept >= 2 then Filtered(s[1..], kept)
    else "\n" + Filtered(s[1..], kept + 1)
  }

  lemma {:induction false} FilteredRun(s: string, kept: nat)
    requires kept <= 2
    ensures var n := Lead(s);
            Filtered(s, kept) == s[..if n > 2 - kept then 2 - kept else n] + Filtered(s[n..], 0)
  {
    var n := Lead(s);
    if n == 0 {
      assert s[0..] == s && s[..0] + Filtered(s, 0) == Filtered(s, 0);
    } else {
      assert s[1..][n - 1..] == s[n..];
      if kept == 2 {
        FilteredRun(s[1..], 2);
        assert s[..0] == s[1..][..0];
      } else {
        FilteredRun(s[1..], kept + 1);
        var m := if n > 2 - kept then 2 - kept else n;
        assert s[..m] == "\n" + s[1..][..m - 1];
        Assoc("\n", s[1..][..m - 1], Filtered(s[n..], 0));
      }
    }
  }

  lemma {:induction false} FilteredIsSqueezed(s: string)
    ensures Filtered(s, 0) == Squeezed(s)
  {
    if s != "" {
      if s[0] == '\n' {
        FilteredRun(s, 0);
        FilteredIsSqueezed(s[Lead(s)..]);
      } else {
        FilteredIsSqueezed(s[1..]);
      }
    }
  }

  /** A pass changes the page, but not what is left after filtering. */
  lemma {:induction false} PassKeepsFiltered(s: string, kept: nat)
    requires kept <= 2
    ensures Filtered(Replaced(s), kept) == Filtered(s, kept)
  {
    if StartsTriple(s) {
      var r := Replaced(s[3..]);
      PassKeepsFiltered(s[3..], 2);
      Tail("\n", "\n" + r);
      Tail("\n", r);
      TripleFiltered(s, kept);
    } else if s != "" {
      Tail([s[0]], Replaced(s[1..]));
      PassKeepsFiltered(s[1..], if s[0] != '\n' then 0 else if kept >= 2 then 2 else kept + 1);
    }
  }

  lemma TripleFiltered(s: string, kept: nat)
    requires StartsTriple(s) && kept <= 2
    ensures Filtered(s, kept) == if kept == 2 then Filtered(s[3..], 2)
                                 else if kept == 1 then "\n" + Filtered(s[3..], 2)
                                 else "\n" + ("\n" + Filtered(s[3..], 2))
  {
    assert s[1..][1..] == s[2..] && s[2..][1..] == s[3..];
    assert Filtered(s[1..], 2) == Filtered(s[3..], 2) == Filtered(s[2..], 2);
  }

  lemma PassKeepsSqueezed(s: string)
    ensures Squeezed(Replaced(s)) == Squeezed(s)
  {
    PassKeepsFiltered(s, 0);
    FilteredIsSqueezed(s);
    FilteredIsSqueezed(Replaced(s));
  }

  lemma {:induction false} NothingToSqueeze(s: string)
    requires !HasTriple(s)
    ensures Squeezed(s) == s
  {
    if s != "" {
      if s[0] == '\n' {
        var n := Lead(s);
        assert n <= 2;
        NoTripleDrop(s, n);
        NothingToSqueeze(s[n..]);
        assert Squeezed(s) == s[..n] + s[n..];
      } else {
        NothingToSqueeze(s[1..]);
        assert Squeezed(s) == [s[0]] + s[1..];
      }
    }
  }

  lemma {:induction false} NoTripleDrop(s: string, k: nat)
    requires !HasTriple(s) && k <= |s|
    ensures !HasTriple(s[k..])
  {
    if k > 0 {
      NoTripleDrop(s[1..], k - 1);
      assert s[1..][k - 1..] == s[k..];
    } else {
      assert s[0..] == s;
    }
  }

  /** The rewrite loop ends, and has squeezed the page. */
  method Collapse(text: string) returns (page: string)
    ensures page == Squeezed(text)
    ensures !HasTriple(page)
  {
    page := text;
    while HasTriple(page)
      invariant Squeezed(page) == Squeezed(text)
      decreases |page|
    {
      ReplacedShortens(page);
      PassKeepsSqueezed(page);
      page := Replaced(page);
    }
    NothingToSqueeze(page);
  }

  method Finish(text: string) returns (page: string)
    ensures page == TrimEnd(Squeezed(text)) + "\n"
    ensures var whole, n := Squeezed(text), |page| - 1;
            && page[n] == '\n' && page[..n] <= whole
            && (forall i :: n <= i < |whole| ==> IsWhitespace(whole[i]))
            && (n > 0 ==> !IsWhitespace(page[n - 1]))
  {
    page := Collapse(text);
    page := TrimEnd(page);
    page := page + "\n";
  }

  lemma {:induction false} NoTripleTake(s: string, k: nat)
    requires !HasTriple(s) && k <= |s|
    ensures !HasTriple(s[..k])
  {
    if k > 0 {
      assert s[..k][1..] == s[1..][..k - 1];
      NoTripleTake(s[1..], k - 1);
    }
  }

  lemma {:induction false} SqueezedHasNoTriple(s: string)
    ensures !HasTriple(Squeezed(s))
    ensures Squeezed(s) != "" && s[0] != '\n' ==> Squeezed(s)[0] != '\n'
  {
    if s != "" {
      var n := Lead(s);
      if s[0] == '\n' {
        SqueezedHasNoTriple(s[n..]);
        NewlinesInFront(s[..if n > 2 then 2 else n], Squeezed(s[n..]));
      } else {
        SqueezedHasNoTriple(s[1..]);
        assert Squeezed(s)[1..] == Squeezed(s[1..]);
      }
    }
  }

  lemma {:induction false} NewlinesInFront(front: string, s: string)
    requires |front| <= 2 && !HasTriple(s) && (s != "" ==> s[0] != '\n')
    ensures !HasTriple(front + s)
  {
    if front == "" {
      assert front + s == s;
    } else {
      NewlinesInFront(front[1..], s);
      assert (front + s)[1..] == front[1..] + s;
      assert s != "" ==> (front + s)[|front|] == s[0];
    }
  }

  lemma {:induction false} NewlineAtEnd(s: string)
    requires !HasTriple(s) && (s != "" ==> s[|s| - 1] != '\n')
    ensures !HasTriple(s + "\n")
  {
    if s != "" {
      NewlineAtEnd(s[1..]);
      assert (s + "\n")[1..] == s[1..] + "\n";
    }
  }

  lemma TrimEndPush(s: string)
    requires s != "" ==> !IsWhitespace(s[|s| - 1])
    ensures TrimEnd(s + "\n") == s
  {
    assert (s + "\n")[..|s|] == s;
    assert TrimEnd(s + "\n") == TrimEnd(s);
  }

  /** The final page ends in exactly one newline, with no blank before it, and still has no run
      of three newlines; finishing it again changes nothing. */
  lemma FinalPage(text: string)
    ensures var page := TrimEnd(Squeezed(text)) + "\n";
            && !HasTriple(page)
            && (|page| > 1 ==> !IsWhitespace(page[|page| - 2]))
            && TrimEnd(Squeezed(page)) + "\n" == page
  {
    var trimmed := TrimEnd(Squeezed(text));
    assert !HasTriple(trimmed) by {
      SqueezedHasNoTriple(text);
      NoTripleTake(Squeezed(text), |trimmed|);
      assert trimmed == Squeezed(text)[..|trimmed|];
    }
    assert !HasTriple(trimmed + "\n") by {
      NewlineAtEnd(trimmed);
    }
    assert Squeezed(trimmed + "\n") == trimmed + "\n" by {
      NothingToSqueeze(trimmed + "\n");
    }
    TrimEndPush(trimmed);
  }
}
