/** The loop that says which hostnames became paused, and which are served again. Every tick
    brings the list of hostnames paused now; a list that could not be read counts as empty. */
module PauseAnnouncer {
  import opened Changes
  import opened Histories
  import opened Wrappers

  datatype Line = Paused(hostname: string) | Served(hostname: string)

  function Lines(hostnames: seq<string>, known: seq<string>, paused: bool): seq<Line> {
    if hostnames == [] then []
    else
      Lines(Init(hostnames), known, paused)
      + if Last(hostnames) in known then [] else [if paused then Paused(Last(hostnames)) else Served(Last(hostnames))]
  }

  class Announcer {
    var paused: seq<string>

    constructor ()
      ensures paused == []
    {
      paused := [];
    }

    method Tick(now: seq<string>) returns (lines: seq<Line>)
      modifies this
      ensures paused == now
      ensures lines == Lines(now, old(paused), true) + Lines(old(paused), now, false)
    {
      lines := [];
      for i := 0 to |now|
        invariant paused == old(paused)
        invariant lines == Lines(now[..i], paused, true)
      {
        assert Init(now[..i + 1]) == now[..i];
        if now[i] !in paused {
          lines := lines + [Paused(now[i])];
        }
      }
      ghost var first := lines;
      assert now[..|now|] == now;
      for i := 0 to |paused|
        invariant paused == old(paused)
        invariant lines == first + Lines(paused[..i], now, false)
      {
        assert Init(paused[..i + 1]) == paused[..i];
        if paused[i] !in now {
          lines := lines + [Served(paused[i])];
        }
      }
      assert paused[..|paused|] == paused;
      paused := now;
    }
  }

  /** The list the loop knows after the ticks so far. */
  function Known(ticks: seq<seq<string>>): seq<string> {
    if ticks == [] then [] else Last(ticks)
  }

  function Said(ticks: seq<seq<string>>): seq<Line> {
    if ticks == [] then []
    else
      var known, now := Known(Init(ticks)), Last(ticks);
      Said(Init(ticks)) + (Lines(now, known, true) + Lines(known, now, false))
  }

  // ----- One hostname -----

  function Of(hostname: string): Line -> Option<bool> {
    (line: Line) => if line.hostname == hostname then Some(line.Paused?) else None
  }

  /** What was said about one hostname: that it is paused (true) or served (false). */
  function About(lines: seq<Line>, hostname: string): seq<bool> {
    Picked(lines, Of(hostname))
  }

  function Times(list: seq<string>, hostname: string): (n: nat)
    ensures n > 0 <==> hostname in list
  {
    if list == [] then 0
    else
      assert list == Init(list) + [Last(list)];
      Times(Init(list), hostname) + if Last(list) == hostname then 1 else 0
  }

  function Repeat(word: bool, n: nat): (words: seq<bool>)
    ensures |words| == n && forall i :: 0 <= i < n ==> words[i] == word
  {
    if n == 0 then [] else Repeat(word, n - 1) + [word]
  }

  lemma {:induction false} AboutLines(hostnames: seq<string>, known: seq<string>, paused: bool, hostname: string)
    ensures About(Lines(hostnames, known, paused), hostname)
            == if hostname in known then [] else Repeat(paused, Times(hostnames, hostname))
  {
    if hostnames != [] {
      var before, last := Lines(Init(hostnames), known, paused), Last(hostnames);
      AboutLines(Init(hostnames), known, paused, hostname);
      if last in known {
        assert before + [] == before;
      } else {
        Push(before, if paused then Paused(last) else Served(last));
        assert About(before, hostname) + [] == About(before, hostname);
      }
    }
  }

  /** A tick says about a hostname that it became paused, or is served again, as often as the
      list holds it, and nothing when neither changed. */
  function Change(known: seq<string>, now: seq<string>, hostname: string): seq<bool> {
    if hostname in now && hostname !in known then Repeat(true, Times(now, hostname))
    else if hostname in known && hostname !in now then Repeat(false, Times(known, hostname))
    else []
  }

  lemma AboutTick(known: seq<string>, now: seq<string>, hostname: string)
    ensures About(Lines(now, known, true) + Lines(known, now, false), hostname) == Change(known, now, hostname)
  {
    var up, down := About(Lines(now, known, true), hostname), About(Lines(known, now, false), hostname);
    PickedConcat(Lines(now, known, true), Lines(known, now, false), Of(hostname));
    AboutLines(now, known, true, hostname);
    AboutLines(known, now, false, hostname);
    if hostname in known || hostname !in now {
      assert up == [] && up + down == down;
    } else {
      assert down == [] && up + down == up;
    }
  }

  /** The messages alternate, starting with "paused". */
  ghost predicate Alternates(words: seq<bool>) {
    forall i :: 0 <= i < |words| ==> words[i] == (i % 2 == 0)
  }

  /** The hostname did not come up or go away listed more than once. */
  predicate Once(known: seq<string>, now: seq<string>, hostname: string) {
    && (hostname in now && hostname !in known ==> Times(now, hostname) == 1)
    && (hostname in known && hostname !in now ==> Times(known, hostname) == 1)
  }

  ghost predicate ListedOnce(ticks: seq<seq<string>>, hostname: string) {
    ticks != [] ==> ListedOnce(Init(ticks), hostname) && Once(Known(Init(ticks)), Last(ticks), hostname)
  }

  lemma AlternatesPush(words: seq<bool>, word: bool, n: nat)
    requires Alternates(words) && word == (|words| % 2 == 0) && n >= 1
    ensures Alternates(words + Repeat(word, n)) <==> n == 1
  {
    var more := words + Repeat(word, n);
    assert more[|words|] == word;
    if n >= 2 {
      assert more[|words| + 1] == word;
      assert (|words| + 1) % 2 != |words| % 2;
    }
  }

  lemma PrefixAlternates(a: seq<bool>, b: seq<bool>)
    ensures Alternates(a + b) ==> Alternates(a)
  {
    assert forall i :: 0 <= i < |a| ==> (a + b)[i] == a[i];
  }

  lemma TickAlternates(words: seq<bool>, known: seq<string>, now: seq<string>, hostname: string)
    requires Alternates(words) ==> (|words| % 2 == 1 <==> hostname in known)
    ensures var more := words + Change(known, now, hostname);
            && (Alternates(more) <==> Alternates(words) && Once(known, now, hostname))
            && (Alternates(more) ==> (|more| % 2 == 1 <==> hostname in now))
  {
    var change := Change(known, now, hostname);
    PrefixAlternates(words, change);
    if change == [] {
      assert words + change == words;
    } else if Alternates(words) {
      AlternatesPush(words, hostname in now, |change|);
    }
  }

  /** Over every run, a hostname's messages alternate starting with "paused" exactly when no
      change of it was listed twice, and then the latest message agrees with the current list. */
  lemma {:induction false} MessagesAlternate(ticks: seq<seq<string>>, hostname: string)
    ensures var words := About(Said(ticks), hostname);
            && (Alternates(words) <==> ListedOnce(ticks, hostname))
            && (Alternates(words) ==> (|words| % 2 == 1 <==> hostname in Known(ticks)))
  {
    if ticks != [] {
      var before, known, now := Init(ticks), Known(Init(ticks)), Last(ticks);
      MessagesAlternate(before, hostname);
      PickedConcat(Said(before), Lines(now, known, true) + Lines(known, now, false), Of(hostname));
      AboutTick(known, now, hostname);
      TickAlternates(About(Said(before), hostname), known, now, hostname);
    }
  }

  lemma {:induction false} NoDuplicatesListedOnce(ticks: seq<seq<string>>, hostname: string)
    requires forall t :: t in ticks ==> forall i, j :: 0 <= i < j < |t| ==> t[i] != t[j]
    ensures ListedOnce(ticks, hostname)
  {
    if ticks != [] {
      NoDuplicatesListedOnce(Init(ticks), hostname);
      TimesOfDistinct(Last(ticks), hostname);
      if |ticks| > 1 {
        assert Last(Init(ticks)) in ticks;
        TimesOfDistinct(Last(Init(ticks)), hostname);
      }
    }
  }

  lemma {:induction false} TimesOfDistinct(list: seq<string>, hostname: string)
    requires forall i, j :: 0 <= i < j < |list| ==> list[i] != list[j]
    ensures Times(list, hostname) == if hostname in list then 1 else 0
  {
    if list != [] {
      TimesOfDistinct(Init(list), hostname);
      assert list == Init(list) + [Last(list)];
      assert forall i :: 0 <= i < |Init(list)| ==> Init(list)[i] != Last(list);
    }
  }

  /** Lists without duplicates always alternate. */
  lemma DistinctListsAlternate(ticks: seq<seq<string>>, hostname: string)
    requires forall t :: t in ticks ==> forall i, j :: 0 <= i < j < |t| ==> t[i] != t[j]
    ensures Alternates(About(Said(ticks), hostname))
    ensures |About(Said(ticks), hostname)| % 2 == 1 <==> hostname in Known(ticks)
  {
    NoDuplicatesListedOnce(ticks, hostname);
    MessagesAlternate(ticks, hostname);
  }

  /** One hostname paused in two accounts is listed, and announced, twice. */
  lemma ListedTwice(hostname: string)
    ensures About(Said([[hostname, hostname]]), hostname) == [true, true]
  {
    var ticks, now := [[hostname, hostname]], [hostname, hostname];
    assert Init(ticks) == [] && Last(ticks) == now;
    AboutTick([], now, hostname);
    assert Init(now) == [hostname] && Init([hostname]) == [];
    assert Times(now, hostname) == 2;
    assert [] + (Lines(now, [], true) + Lines([], now, false)) == Lines(now, [], true) + Lines([], now, false);
  }
}
