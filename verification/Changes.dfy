/** A sequence of observations with immediate repetitions left out. */
module Changes {
  import opened Histories
  import opened Wrappers

  function Compressed<T(==)>(seen: seq<T>): seq<T> {
    if seen == [] then []
    else
      var before := Compressed(Init(seen));
      if before != [] && Last(before) == Last(seen) then before else before + [Last(seen)]
  }

  /** Nothing is said twice in a row, the latest word is the latest observation, and nothing is
      made up. */
  lemma {:induction false} CompressedTellsChanges<T>(seen: seq<T>)
    ensures var said := Compressed(seen);
            && (forall i :: 0 < i < |said| ==> said[i - 1] != said[i])
            && (seen != [] ==> said != [] && Last(said) == Last(seen))
            && (forall x :: x in said <==> x in seen)
  {
    if seen != [] {
      CompressedTellsChanges(Init(seen));
      assert seen == Init(seen) + [Last(seen)];
    }
  }

  lemma CompressedPush<T>(seen: seq<T>, x: T)
    ensures Compressed(seen + [x]) == Compressed(seen) + if seen != [] && Last(seen) == x then [] else [x]
  {
    Push(seen, x);
    CompressedTellsChanges(seen);
  }

  /** What lines say about one subject: the word of each line that is about it. */
  function Picked<L, W>(lines: seq<L>, about: L -> Option<W>): seq<W> {
    if lines == [] then []
    else
      Picked(Init(lines), about)
      + match about(Last(lines))
        case Some(word) => [word]
        case None => []
  }

  lemma {:induction false} PickedConcat<L, W>(a: seq<L>, b: seq<L>, about: L -> Option<W>)
    ensures Picked(a + b, about) == Picked(a, about) + Picked(b, about)
  {
    if b == [] {
      assert a + b == a;
    } else {
      assert Init(a + b) == a + Init(b) && Last(a + b) == Last(b);
      PickedConcat(a, Init(b), about);
    }
  }
}
