/** Where the reader is in a tour of stacked cards, in real numbers. */
module TourPosition {
  function Clamp(x: real, lo: real, hi: real): real
    requires lo <= hi
  {
    if x < lo then lo else if x > hi then hi else x
  }

  /** The last of the first `n` cards whose top has reached the line, or the first card. */
  function Active(tops: seq<real>, line: real, n: nat): nat
    requires n <= |tops|
  {
    if n == 0 then 0 else if tops[n - 1] <= line then n - 1 else Active(tops, line, n - 1)
  }

  /** How far a card has come up from the bottom of the window towards the line. */
  function Coming(top: real, line: real, height: real): real {
    Clamp((height - top) / (if height - line > 1.0 then height - line else 1.0), 0.0, 1.0)
  }

  /** A card at `top` is `way` of the way from the bottom of the window to the line, where less than one
      pixel between them counts as one: none of it below the window, all of it once it has come that far. */
  predicate OnTheWay(way: real, top: real, line: real, height: real) {
    var distance := if height - line > 1.0 then height - line else 1.0;
    && (height - top <= 0.0 ==> way == 0.0)
    && (height - top >= distance ==> way == 1.0)
    && (0.0 < height - top < distance ==> way * distance == height - top)
  }

  /** The card is the last whose top has reached the line, or the first one. */
  predicate LastReached(tops: seq<real>, line: real, active: nat) {
    && (tops != [] ==> active < |tops|)
    && (active > 0 ==> active < |tops| && tops[active] <= line)
    && forall i :: active < i < |tops| ==> tops[i] > line
  }

  /** The progress is the share of the cards passed, the next one counted by how far it has come; a
      single card has none. */
  predicate Passed(tops: seq<real>, active: nat, line: real, height: real, progress: real) {
    && (|tops| <= 1 ==> progress == 0.0)
    && (|tops| > 1 && active == |tops| - 1 ==> progress == 1.0)
    && (active + 1 < |tops| ==> OnTheWay(progress * (|tops| - 1) as real - active as real, tops[active + 1], line, height))
  }

  lemma LastReachedIs(tops: seq<real>, line: real)
    ensures LastReached(tops, line, Active(tops, line, |tops|))
  {
    ActiveIsLast(tops, line, |tops|);
  }

  lemma ComingIs(top: real, line: real, height: real)
    ensures OnTheWay(Coming(top, line, height), top, line, height) && 0.0 <= Coming(top, line, height) <= 1.0
  {
    var distance := if height - line > 1.0 then height - line else 1.0;
    var ratio := (height - top) / distance;
    assert ratio * distance == height - top;
    if ratio < 0.0 {
      Scaled(ratio, 0.0, distance);
    } else if ratio > 1.0 {
      Scaled(1.0, ratio, distance);
    } else {
      Scaled(0.0, ratio, distance);
      Scaled(ratio, 1.0, distance);
    }
  }

  lemma Scaled(a: real, b: real, d: real)
    requires a <= b && d > 0.0
    ensures a * d <= b * d
  {
    assert (b - a) * d >= 0.0;
  }

  function Progress(tops: seq<real>, active: nat, line: real, height: real): real {
    var coming := if active + 1 < |tops| then Coming(tops[active + 1], line, height) else 0.0;
    if |tops| > 1 then Clamp((active as real + coming) / ((|tops| - 1) as real), 0.0, 1.0) else 0.0
  }

  method Position(tops: seq<real>, line: real, height: real) returns (active: nat, progress: real)
    ensures active == Active(tops, line, |tops|)
    ensures progress == Progress(tops, active, line, height)
    ensures LastReached(tops, line, active) && Passed(tops, active, line, height, progress)
  {
    hide LastReached, Passed;
    active := 0;
    for index := 0 to |tops|
      invariant active == Active(tops, line, index)
    {
      if tops[index] <= line {
        active := index;
      }
    }
    var coming := 0.0;
    if active + 1 < |tops| {
      var next := tops[active + 1];
      var way := if height - line > 1.0 then height - line else 1.0;
      var ratio := (height - next) / way;
      coming := if ratio < 0.0 then 0.0 else if ratio > 1.0 then 1.0 else ratio;
    }
    progress := 0.0;
    if |tops| > 1 {
      var ratio := (active as real + coming) / ((|tops| - 1) as real);
      CardsPassed(|tops|, active, coming);
      progress := if ratio > 1.0 then 1.0 else ratio;
    }
    LastReachedIs(tops, line);
    ProgressIs(tops, active, line, height);
  }

  lemma ProgressIs(tops: seq<real>, active: nat, line: real, height: real)
    requires LastReached(tops, line, active)
    ensures Passed(tops, active, line, height, Progress(tops, active, line, height))
  {
    if |tops| > 1 {
      var coming := if active + 1 < |tops| then Coming(tops[active + 1], line, height) else 0.0;
      if active + 1 < |tops| {
        ComingIs(tops[active + 1], line, height);
      }
      hide Coming, OnTheWay;
      RatioIs(active as real, coming, (|tops| - 1) as real);
    }
  }

  lemma RatioIs(active: real, coming: real, cards: real)
    requires 0.0 <= active && 0.0 <= coming && active + coming <= cards && cards > 0.0
    ensures var progress := Clamp((active + coming) / cards, 0.0, 1.0);
            progress * cards - active == coming && (active == cards ==> progress == 1.0)
  {
    var ratio := (active + coming) / cards;
    assert ratio * cards == active + coming;
    Divide(0.0, active + coming, cards);
    if ratio > 1.0 {
      assert (ratio - 1.0) * cards > 0.0;
    }
    RatioOfOne(active + coming, cards);
  }

  lemma CardsPassed(cards: nat, active: nat, coming: real)
    requires cards > 1 && coming >= 0.0
    ensures (active as real + coming) / ((cards - 1) as real) >= 0.0
  {
    Divide(0.0, active as real + coming, (cards - 1) as real);
  }

  lemma Divide(a: real, b: real, d: real)
    requires a <= b && d > 0.0
    ensures a / d <= b / d
  {
    assert (b / d - a / d) * d == b - a;
  }

  lemma {:induction false} ActiveIsLast(tops: seq<real>, line: real, n: nat)
    requires n <= |tops|
    ensures n > 0 ==> Active(tops, line, n) < n
    ensures forall i :: Active(tops, line, n) < i < n ==> tops[i] > line
    ensures Active(tops, line, n) > 0 ==> tops[Active(tops, line, n)] <= line
  {
    if n > 0 && tops[n - 1] > line {
      ActiveIsLast(tops, line, n - 1);
    }
  }

  lemma ComingGrows(top: real, moved: real, line: real, height: real)
    requires moved <= top
    ensures 0.0 <= Coming(top, line, height) <= Coming(moved, line, height) <= 1.0
  {
    Divide(height - top, height - moved, if height - line > 1.0 then height - line else 1.0);
  }

  lemma RatioOfOne(x: real, d: real)
    requires d > 0.0
    ensures x / d >= 1.0 <==> x >= d
  {
    assert x / d * d == x;
  }

  /** The progress stays in [0, 1], and of two or more cards it is 1 exactly when the last one is
      active, or the one before it is and the last has come all the way up. */
  lemma ProgressInRange(tops: seq<real>, line: real, height: real)
    ensures var active := Active(tops, line, |tops|);
            && 0.0 <= Progress(tops, active, line, height) <= 1.0
            && (|tops| > 1 ==>
                  (Progress(tops, active, line, height) == 1.0 <==>
                    || active == |tops| - 1
                    || (active == |tops| - 2 && Coming(tops[active + 1], line, height) == 1.0)))
  {
    ActiveIsLast(tops, line, |tops|);
    if |tops| > 1 {
      var active := Active(tops, line, |tops|);
      var coming := if active + 1 < |tops| then Coming(tops[active + 1], line, height) else 0.0;
      RatioOfOne(active as real + coming, (|tops| - 1) as real);
    }
  }

  /** When all cards move up by the same amount the progress never goes back, even when the scan
      jumps over cards: the tops need not be in order. */
  lemma ProgressNeverGoesBack(tops: seq<real>, line: real, height: real, up: real)
    requires up >= 0.0
    ensures
      var moved := seq(|tops|, i requires 0 <= i < |tops| => tops[i] - up);
      Progress(tops, Active(tops, line, |tops|), line, height)
      <= Progress(moved, Active(moved, line, |moved|), line, height)
  {
    var moved := seq(|tops|, i requires 0 <= i < |tops| => tops[i] - up);
    var before, after := Active(tops, line, |tops|), Active(moved, line, |moved|);
    ActiveIsLast(tops, line, |tops|);
    ActiveIsLast(moved, line, |moved|);
    assert before <= after by {
      assert before > 0 ==> moved[before] <= line;
    }
    if |tops| > 1 {
      var was := if before + 1 < |tops| then Coming(tops[before + 1], line, height) else 0.0;
      var comes := if after + 1 < |tops| then Coming(moved[after + 1], line, height) else 0.0;
      if before == after && before + 1 < |tops| {
        ComingGrows(tops[before + 1], moved[before + 1], line, height);
      }
      assert before as real + was <= after as real + comes;
      Divide(before as real + was, after as real + comes, (|tops| - 1) as real);
    }
  }
}
