/** `teitunnel share`: the loop that reports how a share is doing until it ends. Every look at
    the share either prints lines, ends the loop, or does nothing. */
module ShareStatus {
  import opened Changes
  import opened Histories
  import opened Wrappers

  datatype Status = Starting | Live | Reconnecting | Failed(message: string)

  datatype Share = Share(status: Status, url: Option<string>, check: Option<string>)

  /** How announcing the URL on standard output ends, if it comes to that. */
  datatype Announcing = Printed | UrlFailed | CodeFailed

  /** One round of the loop: the share as found (None once it is gone), how an announcement
      would go, whether recording the share for the app works, and whether the user stops it. */
  datatype Look = Look(share: Option<Share>, announcing: Announcing, recorded: bool, stopped: bool)

  datatype Line = Announced(url: string) | Bearer(url: string) | NotRecorded | Explained(check: string) | Lost | Reconnected

  datatype Outcome = Success | ShareFailed(message: string) | OutputFailed

  datatype State = State(announced: bool, checked: bool, reconnecting: bool, lines: seq<Line>, outcome: Option<Outcome>)

  const START := State(false, false, false, [], None)

  predicate IsUp(look: Look) {
    look.share.Some? && look.share.value.status.Live? && look.share.value.url.Some?
  }

  predicate IsDown(look: Look) {
    look.share.Some? && look.share.value.status.Reconnecting?
  }

  /** The announcement, up to where it fails. */
  function Announcement(look: Look, bearer: bool): seq<Line>
    requires IsUp(look)
  {
    var url := look.share.value.url.value;
    if look.announcing.UrlFailed? then []
    else if look.announcing.CodeFailed? then [Announced(url)]
    else [Announced(url)] + ((if bearer then [Bearer(url)] else []) + if look.recorded then [] else [NotRecorded])
  }

  /** The check is explained once, at a look after the announcement. */
  function Explanation(s: State, look: Look): seq<Line>
    requires IsUp(look)
  {
    var check := look.share.value.check;
    if s.announced && !s.checked && check.Some? then [Explained(check.value)] else []
  }

  /** What a look at a live share prints. */
  function UpLines(s: State, look: Look, bearer: bool): seq<Line>
    requires IsUp(look)
  {
    Explanation(s, look)
    + if !s.announced then Announcement(look, bearer) else if s.reconnecting then [Reconnected] else []
  }

  function Next(s: State, look: Look, bearer: bool): State {
    if s.outcome.Some? then s
    else
      var after :=
        if look.share.None? then s.(outcome := Some(Success))
        else if look.share.value.status.Failed? then s.(outcome := Some(ShareFailed(look.share.value.status.message)))
        else if IsUp(look) then
          State(true, s.checked || (s.announced && look.share.value.check.Some?), false,
                s.lines + UpLines(s, look, bearer),
                if !s.announced && !look.announcing.Printed? then Some(OutputFailed) else None)
        else if IsDown(look) then
          s.(reconnecting := true, lines := if s.reconnecting then s.lines else s.lines + [Lost])
        else s;
      if after.outcome.None? && look.stopped then after.(outcome := Some(Success)) else after
  }

  function After(looks: seq<Look>, bearer: bool): State {
    if looks == [] then START else Next(After(Init(looks), bearer), Last(looks), bearer)
  }

  /** The flags the loop keeps, and what it printed so far. */
  class Reporter {
    var announced: bool
    var checked: bool
    var reconnecting: bool
    var lines: seq<Line>

    ghost function View(outcome: Option<Outcome>): State
      reads this
    {
      State(announced, checked, reconnecting, lines, outcome)
    }

    constructor ()
      ensures View(None) == START
    {
      announced, checked, reconnecting, lines := false, false, false, [];
    }

    method Announce(look: Look, bearer: bool) returns (failed: bool)
      requires IsUp(look)
      modifies this`lines
      ensures failed == !look.announcing.Printed?
      ensures lines == old(lines) + Announcement(look, bearer)
    {
      var url := look.share.value.url.value;
      if look.announcing.UrlFailed? {
        return true;
      }
      lines := lines + [Announced(url)];
      if look.announcing.CodeFailed? {
        return true;
      }
      if bearer {
        lines := lines + [Bearer(url)];
      }
      if !look.recorded {
        lines := lines + [NotRecorded];
      }
      assert lines == old(lines) + Announcement(look, bearer);
      return false;
    }

    method SeeUp(look: Look, bearer: bool) returns (failed: bool)
      requires IsUp(look)
      modifies this
      ensures failed == (!old(announced) && !look.announcing.Printed?)
      ensures lines == old(lines) + UpLines(old(View(None)), look, bearer)
      ensures announced && !reconnecting
      ensures checked == (old(checked) || (old(announced) && look.share.value.check.Some?))
    {
      failed := false;
      if announced && !checked && look.share.value.check.Some? {
        checked := true;
        lines := lines + [Explained(look.share.value.check.value)];
      }
      if !announced {
        announced := true;
        failed := Announce(look, bearer);
      } else if reconnecting {
        lines := lines + [Reconnected];
      }
      reconnecting := false;
    }

    method See(look: Look, bearer: bool) returns (outcome: Option<Outcome>)
      modifies this
      ensures View(outcome) == Next(old(View(None)), look, bearer)
    {
      if look.share.None? {
        return Some(Success);
      }
      var share := look.share.value;
      if share.status.Failed? {
        return Some(ShareFailed(share.status.message));
      }
      if share.status.Live? && share.url.Some? {
        var failed := SeeUp(look, bearer);
        if failed {
          return Some(OutputFailed);
        }
      } else if share.status.Reconnecting? {
        if !reconnecting {
          lines := lines + [Lost];
        }
        reconnecting := true;
      }
      outcome := if look.stopped then Some(Success) else None;
    }
  }

  // ----- How a run ends, and what it announces -----

  /** The first look that finds the share live with its URL. */
  predicate FirstUp(looks: seq<Look>, i: nat) {
    i < |looks| && IsUp(looks[i]) && forall j :: 0 <= j < i ==> !IsUp(looks[j])
  }

  /** The loop ends at look `i` if it comes that far. */
  predicate Ends(looks: seq<Look>, i: nat)
    requires i < |looks|
  {
    || looks[i].share.None?
    || looks[i].share.value.status.Failed?
    || (FirstUp(looks, i) && !looks[i].announcing.Printed?)
    || looks[i].stopped
  }

  /** It comes that far. */
  predicate Reaches(looks: seq<Look>, i: nat) {
    i < |looks| && forall j :: 0 <= j < i ==> !Ends(looks, j)
  }

  /** What look `i` ends the loop with: a failed share's message, a failed announcement, or else
      success, as the share is gone or the user stops. */
  ghost predicate EndsWith(looks: seq<Look>, i: nat, outcome: Option<Outcome>)
    requires i < |looks|
  {
    var look := looks[i];
    var unannounced := FirstUp(looks, i) && !look.announcing.Printed?;
    && (forall message :: outcome == Some(ShareFailed(message)) <==> look.share.Some? && look.share.value.status == Failed(message))
    && (outcome == Some(OutputFailed) <==> unannounced)
    && (outcome == Some(Success) <==>
          look.share.None? || (look.stopped && !look.share.value.status.Failed? && !unannounced))
  }

  /** The outcome is that of the first look that ends the loop, if one does. */
  ghost predicate OutcomeFits(looks: seq<Look>, outcome: Option<Outcome>) {
    && (outcome.None? <==> forall i :: 0 <= i < |looks| ==> !Ends(looks, i))
    && forall i: nat :: Reaches(looks, i) && Ends(looks, i) ==> EndsWith(looks, i, outcome)
  }

  /** The lines that make up the announcement. */
  function OfAnnouncement(): Line -> Option<Line> {
    (line: Line) => if line.Announced? || line.Bearer? || line.NotRecorded? then Some(line) else None
  }

  /** The announcement of a live share: its URL, then the bearer note if a token is asked for, then that
      the share could not be recorded, up to where printing fails. */
  predicate Announces(look: Look, bearer: bool, said: seq<Line>)
    requires IsUp(look)
  {
    var url := look.share.value.url.value;
    match look.announcing
    case UrlFailed => said == []
    case CodeFailed => said == [Announced(url)]
    case Printed =>
      && (!bearer && look.recorded ==> said == [Announced(url)])
      && (bearer && look.recorded ==> said == [Announced(url), Bearer(url)])
      && (!bearer && !look.recorded ==> said == [Announced(url), NotRecorded])
      && (bearer && !look.recorded ==> said == [Announced(url), Bearer(url), NotRecorded])
  }

  /** The first look at the live share announces it, if the loop comes to it, and no other look does. */
  ghost predicate AnnouncementFits(looks: seq<Look>, bearer: bool, lines: seq<Line>) {
    var said := Picked(lines, OfAnnouncement());
    && (forall i: nat :: Reaches(looks, i) && FirstUp(looks, i) ==> Announces(looks[i], bearer, said))
    && ((forall i: nat :: !(Reaches(looks, i) && FirstUp(looks, i))) ==> said == [])
  }

  /** The loop over the looks it takes; `outcome` is None while it would still be running. */
  method Run(looks: seq<Look>, bearer: bool) returns (lines: seq<Line>, outcome: Option<Outcome>)
    ensures lines == After(looks, bearer).lines && outcome == After(looks, bearer).outcome
    ensures OutcomeFits(looks, outcome)
    ensures AnnouncementFits(looks, bearer, lines)
  {
    hide OutcomeFits, AnnouncementFits;
    var reporter := new Reporter();
    outcome := None;
    var i := 0;
    while i < |looks| && outcome.None?
      invariant i <= |looks| && reporter.View(outcome) == After(looks[..i], bearer)
    {
      assert Init(looks[..i + 1]) == looks[..i] && Last(looks[..i + 1]) == looks[i];
      outcome := reporter.See(looks[i], bearer);
      i := i + 1;
    }
    if outcome.Some? {
      EndedStaysEnded(looks, i, bearer);
    } else {
      assert looks[..i] == looks;
    }
    lines := reporter.lines;
    OutcomeIs(looks, bearer);
    AnnouncementIs(looks, bearer);
  }

  lemma EndsBefore(looks: seq<Look>)
    requires looks != []
    ensures forall i: nat :: i < |looks| - 1 ==> (FirstUp(Init(looks), i) <==> FirstUp(looks, i))
    ensures forall i: nat :: i < |looks| - 1 ==> (Ends(Init(looks), i) <==> Ends(looks, i))
    ensures forall i: nat :: i < |looks| - 1 ==> (Reaches(Init(looks), i) <==> Reaches(looks, i))
  {
    assert forall i :: 0 <= i < |looks| - 1 ==> Init(looks)[i] == looks[i];
  }

  /** The flag is set exactly if some look has found the share live. */
  lemma {:induction false} AnnouncedIs(looks: seq<Look>, bearer: bool)
    ensures After(looks, bearer).outcome.None? ==>
              (After(looks, bearer).announced <==> exists i :: 0 <= i < |looks| && IsUp(looks[i]))
  {
    if looks != [] {
      AnnouncedIs(Init(looks), bearer);
      assert looks == Init(looks) + [Last(looks)];
    }
  }

  lemma FirstUpNow(looks: seq<Look>, bearer: bool)
    requires looks != [] && After(Init(looks), bearer).outcome.None?
    ensures FirstUp(looks, |looks| - 1) <==> IsUp(Last(looks)) && !After(Init(looks), bearer).announced
  {
    AnnouncedIs(Init(looks), bearer);
    assert forall i :: 0 <= i < |looks| - 1 ==> Init(looks)[i] == looks[i];
  }

  lemma OutcomeOfLook(s: State, looks: seq<Look>, i: nat, bearer: bool)
    requires s.outcome.None? && i < |looks| && (FirstUp(looks, i) <==> IsUp(looks[i]) && !s.announced)
    ensures var outcome := Next(s, looks[i], bearer).outcome;
            (outcome.Some? <==> Ends(looks, i)) && (Ends(looks, i) ==> EndsWith(looks, i, outcome))
  {
    hide UpLines, FirstUp;
  }

  lemma EndsWithBefore(looks: seq<Look>, i: nat, outcome: Option<Outcome>)
    requires i < |looks| - 1
    ensures EndsWith(Init(looks), i, outcome) <==> EndsWith(looks, i, outcome)
  {
    EndsBefore(looks);
    assert Init(looks)[i] == looks[i];
    hide FirstUp;
  }

  lemma {:induction false} OutcomeIs(looks: seq<Look>, bearer: bool)
    ensures OutcomeFits(looks, After(looks, bearer).outcome)
  {
    if looks != [] {
      var n, before := |looks| - 1, After(Init(looks), bearer);
      OutcomeIs(Init(looks), bearer);
      EndsBefore(looks);
      assert After(looks, bearer) == Next(before, looks[n], bearer);
      assert before.outcome.None? <==> forall i :: 0 <= i < n ==> !Ends(looks, i);
      if before.outcome.None? {
        FirstUpNow(looks, bearer);
        hide After, Ends, EndsWith;
        OutcomeOfLook(before, looks, n, bearer);
        hide Next;
      } else {
        hide After, Ends, EndsWith;
        forall i: nat | Reaches(looks, i) && Ends(looks, i)
          ensures EndsWith(looks, i, before.outcome)
        {
          EndsWithBefore(looks, i, before.outcome);
        }
      }
    }
  }

  lemma PickedOne(line: Line)
    ensures Picked([line], OfAnnouncement()) == if line.Announced? || line.Bearer? || line.NotRecorded? then [line] else []
  {
    assert Init([line]) == [];
  }

  lemma PickedMore(lines: seq<Line>, line: Line)
    ensures Picked(lines + [line], OfAnnouncement())
            == Picked(lines, OfAnnouncement()) + if line.Announced? || line.Bearer? || line.NotRecorded? then [line] else []
  {
    PickedConcat(lines, [line], OfAnnouncement());
    PickedOne(line);
  }

  lemma PickedAnnouncement(look: Look, bearer: bool)
    requires IsUp(look)
    ensures Announces(look, bearer, Announcement(look, bearer))
    ensures Picked(Announcement(look, bearer), OfAnnouncement()) == Announcement(look, bearer)
  {
    var url := look.share.value.url.value;
    assert Picked([], OfAnnouncement()) == [];
    hide Picked;
    PickedOne(Announced(url));
    PickedMore([Announced(url)], Bearer(url));
    PickedMore([Announced(url)], NotRecorded);
    PickedMore([Announced(url), Bearer(url)], NotRecorded);
    assert [Announced(url)] + [Bearer(url)] == [Announced(url), Bearer(url)];
    assert [Announced(url)] + [NotRecorded] == [Announced(url), NotRecorded];
    assert [Announced(url), Bearer(url)] + [NotRecorded] == [Announced(url), Bearer(url), NotRecorded];
  }

  lemma PickedUp(s: State, look: Look, bearer: bool)
    requires IsUp(look)
    ensures Picked(UpLines(s, look, bearer), OfAnnouncement()) == if s.announced then [] else Announcement(look, bearer)
  {
    var explained := Explanation(s, look);
    var rest := if !s.announced then Announcement(look, bearer) else if s.reconnecting then [Reconnected] else [];
    assert Picked([], OfAnnouncement()) == [];
    hide Picked, Announcement;
    PickedConcat(explained, rest, OfAnnouncement());
    PickedAnnouncement(look, bearer);
    PickedOne(Reconnected);
    if explained != [] {
      PickedOne(Explained(look.share.value.check.value));
    }
    assert [] + Picked(rest, OfAnnouncement()) == Picked(rest, OfAnnouncement());
  }

  /** What a look adds to the announcement. */
  lemma PickedOfLook(s: State, look: Look, bearer: bool)
    requires s.outcome.None?
    ensures Picked(Next(s, look, bearer).lines, OfAnnouncement())
            == Picked(s.lines, OfAnnouncement()) + if IsUp(look) && !s.announced then Announcement(look, bearer) else []
  {
    var said := Picked(s.lines, OfAnnouncement());
    assert said + [] == said;
    hide Announcement, Picked, UpLines;
    if IsUp(look) {
      PickedConcat(s.lines, UpLines(s, look, bearer), OfAnnouncement());
      PickedUp(s, look, bearer);
    } else if IsDown(look) {
      PickedMore(s.lines, Lost);
    }
  }

  lemma {:induction false} AnnouncementIs(looks: seq<Look>, bearer: bool)
    ensures AnnouncementFits(looks, bearer, After(looks, bearer).lines)
  {
    if looks == [] {
    } else if After(Init(looks), bearer).outcome.None? {
      var before := After(Init(looks), bearer);
      assert After(looks, bearer) == Next(before, Last(looks), bearer);
      hide *;
      AnnouncementIs(Init(looks), bearer);
      FirstUpNow(looks, bearer);
      PickedOfLook(before, Last(looks), bearer);
      ReachedNow(looks, bearer);
      AnnouncedAnew(looks, bearer, before, After(looks, bearer).lines);
    } else {
      AnnouncementIs(Init(looks), bearer);
      ReachedNow(looks, bearer);
      assert After(looks, bearer) == After(Init(looks), bearer);
      hide *;
      NothingAnnounced(looks, bearer, After(Init(looks), bearer).lines);
    }
  }

  lemma ReachedNow(looks: seq<Look>, bearer: bool)
    requires looks != []
    ensures Reaches(looks, |looks| - 1) <==> After(Init(looks), bearer).outcome.None?
  {
    OutcomeIs(Init(looks), bearer);
    EndsBefore(looks);
    hide Ends, After;
  }

  lemma NothingAnnounced(looks: seq<Look>, bearer: bool, lines: seq<Line>)
    requires looks != [] && AnnouncementFits(Init(looks), bearer, lines) && !Reaches(looks, |looks| - 1)
    ensures AnnouncementFits(looks, bearer, lines)
  {
    EndsBefore(looks);
    assert forall i :: 0 <= i < |looks| - 1 ==> Init(looks)[i] == looks[i];
    assert forall i: nat :: Reaches(looks, i) ==> i < |looks|;
    assert forall i: nat :: Reaches(Init(looks), i) ==> i < |looks| - 1;
    hide Ends, Picked, Announces, FirstUp, Reaches;
  }

  lemma AnnouncedAnew(looks: seq<Look>, bearer: bool, s: State, lines: seq<Line>)
    requires looks != [] && AnnouncementFits(Init(looks), bearer, s.lines) && Reaches(looks, |looks| - 1)
    requires FirstUp(looks, |looks| - 1) <==> IsUp(Last(looks)) && !s.announced
    requires Picked(lines, OfAnnouncement())
             == Picked(s.lines, OfAnnouncement()) + if IsUp(Last(looks)) && !s.announced then Announcement(Last(looks), bearer) else []
    ensures AnnouncementFits(looks, bearer, lines)
  {
    var said := Picked(s.lines, OfAnnouncement());
    if IsUp(Last(looks)) {
      PickedAnnouncement(Last(looks), bearer);
    }
    hide Announcement, Announces, Picked;
    if FirstUp(looks, |looks| - 1) {
      NoneBefore(looks, bearer, s.lines);
      assert [] + Announcement(Last(looks), bearer) == Announcement(Last(looks), bearer);
    } else {
      assert said + [] == said;
    }
    AnnouncementStep(looks, bearer, s.lines, Picked(lines, OfAnnouncement()));
  }

  lemma NoneBefore(looks: seq<Look>, bearer: bool, lines: seq<Line>)
    requires looks != [] && AnnouncementFits(Init(looks), bearer, lines) && FirstUp(looks, |looks| - 1)
    ensures Picked(lines, OfAnnouncement()) == []
  {
    EndsBefore(looks);
    assert forall i :: 0 <= i < |looks| - 1 ==> Init(looks)[i] == looks[i];
    hide Reaches, Announces, Picked;
    forall i: nat
      ensures !(Reaches(Init(looks), i) && FirstUp(Init(looks), i))
    {
    }
  }

  lemma AnnouncementStep(looks: seq<Look>, bearer: bool, lines: seq<Line>, said: seq<Line>)
    requires looks != [] && AnnouncementFits(Init(looks), bearer, lines) && Reaches(looks, |looks| - 1)
    requires FirstUp(looks, |looks| - 1) ==> Announces(Last(looks), bearer, said)
    requires !FirstUp(looks, |looks| - 1) ==> said == Picked(lines, OfAnnouncement())
    ensures forall i: nat :: Reaches(looks, i) && FirstUp(looks, i) ==> Announces(looks[i], bearer, said)
    ensures (forall i: nat :: !(Reaches(looks, i) && FirstUp(looks, i))) ==> said == []
  {
    var n := |looks| - 1;
    EndsBefore(looks);
    assert forall i :: 0 <= i < n ==> Init(looks)[i] == looks[i];
    hide Ends, Picked, Announces;
    assert FirstUp(looks, n) ==> forall i: nat :: i < n ==> !FirstUp(looks, i);
    hide FirstUp, Reaches;
    forall i: nat | Reaches(looks, i) && FirstUp(looks, i)
      ensures Announces(looks[i], bearer, said)
    {
      ReachesWithin(looks, i);
      if i < n {
        assert Reaches(Init(looks), i) && FirstUp(Init(looks), i);
      }
    }
    if forall i: nat :: !(Reaches(looks, i) && FirstUp(looks, i)) {
      forall i: nat
        ensures !(Reaches(Init(looks), i) && FirstUp(Init(looks), i))
      {
        if Reaches(Init(looks), i) {
          ReachesWithin(Init(looks), i);
        }
      }
    }
  }

  lemma ReachesWithin(looks: seq<Look>, i: nat)
    requires Reaches(looks, i)
    ensures i < |looks|
  {
  }

  lemma {:induction false} EndedStaysEnded(looks: seq<Look>, n: nat, bearer: bool)
    requires n <= |looks| && After(looks[..n], bearer).outcome.Some?
    ensures After(looks, bearer) == After(looks[..n], bearer)
    decreases |looks| - n
  {
    if n == |looks| {
      assert looks[..n] == looks;
    } else {
      assert Init(looks[..n + 1]) == looks[..n];
      EndedStaysEnded(looks, n + 1, bearer);
    }
  }

  // ----- The trace of a whole run -----

  /** The lines about the connection, as what they say. */
  datatype Word = First | Again | Gone

  function Words(lines: seq<Line>): seq<Word> {
    if lines == [] then []
    else
      Words(Init(lines))
      + match Last(lines)
        case Announced(_) => [First]
        case Reconnected => [Again]
        case Lost => [Gone]
        case _ => []
  }

  /** What was seen of the connection while the loop ran: up or down. A look that ends the loop
      before its line is out does not count. */
  function Seen(looks: seq<Look>, bearer: bool): seq<bool> {
    if looks == [] then []
    else
      var before, look := Init(looks), Last(looks);
      var s := After(before, bearer);
      Seen(before, bearer)
      + if s.outcome.Some? then []
        else if IsUp(look) then if !s.announced && look.announcing.UrlFailed? then [] else [true]
        else if IsDown(look) then [false]
        else []
  }

  /** The story of an alternation of up and down: the first time up is the announcement. */
  function Story(changes: seq<bool>): seq<Word> {
    if changes == [] then []
    else
      Story(Init(changes))
      + [if !Last(changes) then Gone else if true in Init(changes) then Again else First]
  }

  lemma {:induction false} WordsConcat(a: seq<Line>, b: seq<Line>)
    ensures Words(a + b) == Words(a) + Words(b)
  {
    if b == [] {
      assert a + b == a;
    } else {
      assert Init(a + b) == a + Init(b) && Last(a + b) == Last(b);
      WordsConcat(a, Init(b));
    }
  }

  lemma WordsOf(line: Line)
    ensures Words([line]) == match line
                             case Announced(_) => [First]
                             case Reconnected => [Again]
                             case Lost => [Gone]
                             case _ => []
  {
    assert Init([line]) == [];
  }

  lemma WordsOfAnnouncement(look: Look, bearer: bool)
    requires IsUp(look)
    ensures Words(Announcement(look, bearer)) == if look.announcing.UrlFailed? then [] else [First]
  {
    var url := look.share.value.url.value;
    WordsOf(Announced(url));
    if look.announcing.Printed? {
      var spoken: seq<Line> := if bearer then [Bearer(url)] else [];
      var noted: seq<Line> := if look.recorded then [] else [NotRecorded];
      WordsOf(Bearer(url));
      WordsOf(NotRecorded);
      WordsConcat(spoken, noted);
      WordsConcat([Announced(url)], spoken + noted);
    }
  }

  lemma WordsWhenUp(s: State, look: Look, bearer: bool)
    requires IsUp(look)
    ensures Words(UpLines(s, look, bearer))
            == if s.announced then if s.reconnecting then [Again] else []
               else if look.announcing.UrlFailed? then [] else [First]
  {
    hide Announcement;
    var connection := if !s.announced then Announcement(look, bearer) else if s.reconnecting then [Reconnected] else [];
    WordsConcat(Explanation(s, look), connection);
    if Explanation(s, look) != [] {
      WordsOf(Explained(look.share.value.check.value));
    }
    WordsOfAnnouncement(look, bearer);
    WordsOf(Reconnected);
    assert [] + Words(connection) == Words(connection);
  }

  /** What a look adds to the words, given the flags. */
  lemma WordsOfLook(s: State, look: Look, bearer: bool)
    requires s.outcome.None?
    ensures Words(Next(s, look, bearer).lines)
            == Words(s.lines)
               + if IsUp(look) then
                   if s.announced then if s.reconnecting then [Again] else []
                   else if look.announcing.UrlFailed? then [] else [First]
                 else if IsDown(look) && !s.reconnecting then [Gone]
                 else []
  {
    if IsUp(look) {
      WordsConcat(s.lines, UpLines(s, look, bearer));
      WordsWhenUp(s, look, bearer);
    } else if IsDown(look) {
      WordsConcat(s.lines, [Lost]);
      WordsOf(Lost);
    }
  }

  /** The flags are what the changes so far amount to. */
  ghost predicate FlagsFit(s: State, seen: seq<bool>) {
    && (s.outcome.None? ==> (s.announced <==> true in Compressed(seen)))
    && (s.outcome.None? ==> (s.reconnecting <==> Compressed(seen) != [] && !Last(Compressed(seen))))
    && Words(s.lines) == Story(Compressed(seen))
  }

  lemma SeeOneMore(s: State, look: Look, bearer: bool, seen: seq<bool>, up: bool)
    requires s.outcome.None? && FlagsFit(s, seen)
    requires if up then IsUp(look) && (s.announced || !look.announcing.UrlFailed?) else IsDown(look)
    ensures FlagsFit(Next(s, look, bearer), seen + [up])
  {
    WordsOfLook(s, look, bearer);
    Push(seen, up);
    var before := Compressed(seen);
    if before == [] || Last(before) != up {
      Push(before, up);
    } else {
      assert before == Init(before) + [up];
    }
  }

  lemma SeeNothing(s: State, look: Look, bearer: bool, seen: seq<bool>)
    requires FlagsFit(s, seen)
    requires s.outcome.None? ==> !IsDown(look) && (IsUp(look) ==> !s.announced && look.announcing.UrlFailed?)
    ensures FlagsFit(Next(s, look, bearer), seen)
  {
    if s.outcome.None? {
      WordsOfLook(s, look, bearer);
      assert Words(s.lines) + [] == Words(s.lines);
    }
  }

  /** For every run, the lines about the connection tell exactly the changes between up and
      down: the URL is announced the first time the share is up, "Reconnected" follows every
      later loss, and nothing is said twice. */
  lemma {:induction false} LinesTellChanges(looks: seq<Look>, bearer: bool)
    ensures FlagsFit(After(looks, bearer), Seen(looks, bearer))
  {
    if looks == [] {
    } else {
      hide FlagsFit, Next;
      var before, look := Init(looks), Last(looks);
      var s, seen := After(before, bearer), Seen(before, bearer);
      LinesTellChanges(before, bearer);
      assert seen + [] == seen;
      if s.outcome.None? && IsUp(look) && (s.announced || !look.announcing.UrlFailed?) {
        SeeOneMore(s, look, bearer, seen, true);
      } else if s.outcome.None? && IsDown(look) {
        SeeOneMore(s, look, bearer, seen, false);
      } else {
        SeeNothing(s, look, bearer, seen);
      }
    }
  }

  // ----- What that means for the reader -----

  lemma {:induction false} StoryOfChanges(changes: seq<bool>)
    requires forall i :: 0 < i < |changes| ==> changes[i - 1] != changes[i]
    ensures |Story(changes)| == |changes|
    ensures forall i :: 0 <= i < |changes| ==>
              Story(changes)[i] == if !changes[i] then Gone else if i <= 1 then First else Again
  {
    if changes != [] {
      StoryOfChanges(Init(changes));
      assert forall i :: 0 <= i < |changes| - 1 ==> Init(changes)[i] == changes[i];
      if |changes| >= 3 {
        assert Init(changes)[|changes| - 3] == Last(changes);
      }
    }
  }

  /** The URL is announced at most once; every "Reconnected" directly follows a "Connection
      lost" among these lines, and two losses never follow one another. */
  lemma ConnectionLines(looks: seq<Look>, bearer: bool)
    ensures var words := Words(After(looks, bearer).lines);
            && (forall i, j :: 0 <= i < j < |words| && words[i] == First ==> words[j] != First)
            && (forall i :: 0 <= i < |words| && words[i] == Again ==> i > 0 && words[i - 1] == Gone)
            && (forall i :: 0 < i < |words| && words[i] == Gone ==> words[i - 1] != Gone)
  {
    LinesTellChanges(looks, bearer);
    CompressedTellsChanges(Seen(looks, bearer));
    StoryOfChanges(Compressed(Seen(looks, bearer)));
  }

  // ----- The check -----

  function Explanations(lines: seq<Line>): seq<string> {
    if lines == [] then []
    else Explanations(Init(lines)) + if Last(lines).Explained? then [Last(lines).check] else []
  }

  /** The checks found at the looks while the share was up. */
  function Checks(looks: seq<Look>, bearer: bool): seq<Option<string>> {
    if looks == [] then []
    else
      Checks(Init(looks), bearer)
      + if After(Init(looks), bearer).outcome.None? && IsUp(Last(looks)) then [Last(looks).share.value.check] else []
  }

  predicate FirstFound(checks: seq<Option<string>>, i: int) {
    0 < i < |checks| && checks[i].Some? && forall j :: 0 < j < i ==> checks[j].None?
  }

  /** The first check found after the look that announced the share. */
  function FirstLater(checks: seq<Option<string>>): (found: seq<string>)
    ensures found == [] <==> forall i :: 0 < i < |checks| ==> checks[i].None?
    ensures found != [] ==> exists i :: FirstFound(checks, i) && found == [checks[i].value]
  {
    if |checks| <= 1 then []
    else
      var before := FirstLater(Init(checks));
      assert forall i :: FirstFound(Init(checks), i) ==> FirstFound(checks, i);
      assert before == [] && Last(checks).Some? ==> FirstFound(checks, |checks| - 1);
      if before == [] && Last(checks).Some? then [Last(checks).value] else before
  }

  lemma {:induction false} ExplanationsConcat(a: seq<Line>, b: seq<Line>)
    ensures Explanations(a + b) == Explanations(a) + Explanations(b)
  {
    if b == [] {
      assert a + b == a;
    } else {
      assert Init(a + b) == a + Init(b) && Last(a + b) == Last(b);
      ExplanationsConcat(a, Init(b));
    }
  }

  lemma {:induction false} NoExplanations(lines: seq<Line>)
    requires forall l :: l in lines ==> !l.Explained?
    ensures Explanations(lines) == []
  {
    if lines != [] {
      NoExplanations(Init(lines));
    }
  }

  lemma ExplanationsOf(line: Line)
    ensures Explanations([line]) == if line.Explained? then [line.check] else []
  {
    assert Init([line]) == [];
  }

  lemma ExplanationsWhenUp(s: State, look: Look, bearer: bool)
    requires IsUp(look)
    ensures Explanations(UpLines(s, look, bearer))
            == if s.announced && !s.checked && look.share.value.check.Some? then [look.share.value.check.value] else []
  {
    var connection := if !s.announced then Announcement(look, bearer) else if s.reconnecting then [Reconnected] else [];
    ExplanationsConcat(Explanation(s, look), connection);
    NoExplanations(connection);
    assert Explanations(Explanation(s, look)) + [] == Explanations(Explanation(s, look));
    if Explanation(s, look) != [] {
      ExplanationsOf(Explained(look.share.value.check.value));
    }
  }

  lemma ExplanationsOfLook(s: State, look: Look, bearer: bool)
    requires s.outcome.None?
    ensures Explanations(Next(s, look, bearer).lines)
            == Explanations(s.lines)
               + if IsUp(look) && s.announced && !s.checked && look.share.value.check.Some?
                 then [look.share.value.check.value] else []
  {
    if IsUp(look) {
      ExplanationsConcat(s.lines, UpLines(s, look, bearer));
      ExplanationsWhenUp(s, look, bearer);
    } else if IsDown(look) {
      ExplanationsConcat(s.lines, [Lost]);
      ExplanationsOf(Lost);
    }
  }

  lemma FirstLaterPush(checks: seq<Option<string>>, check: Option<string>)
    ensures FirstLater(checks + [check])
            == FirstLater(checks) + if checks != [] && FirstLater(checks) == [] && check.Some? then [check.value] else []
  {
    Push(checks, check);
  }

  ghost predicate ExplainedFits(s: State, checks: seq<Option<string>>) {
    && Explanations(s.lines) == FirstLater(checks)
    && (s.outcome.None? ==> (s.announced <==> checks != []))
    && (s.outcome.None? ==> (s.checked <==> FirstLater(checks) != []))
  }

  lemma CheckOneMore(s: State, look: Look, bearer: bool, checks: seq<Option<string>>)
    requires s.outcome.None? && ExplainedFits(s, checks)
    ensures ExplainedFits(Next(s, look, bearer), if IsUp(look) then checks + [look.share.value.check] else checks)
  {
    ExplanationsOfLook(s, look, bearer);
    if IsUp(look) {
      FirstLaterPush(checks, look.share.value.check);
    } else {
      assert FirstLater(checks) + [] == FirstLater(checks);
    }
  }

  /** For every run, what is explained is the first check found after the announcement, once. */
  lemma {:induction false} CheckExplainedOnce(looks: seq<Look>, bearer: bool)
    ensures ExplainedFits(After(looks, bearer), Checks(looks, bearer))
  {
    if looks != [] {
      var before, look := Init(looks), Last(looks);
      CheckExplainedOnce(before, bearer);
      assert Checks(before, bearer) + [] == Checks(before, bearer);
      if After(before, bearer).outcome.None? {
        CheckOneMore(After(before, bearer), look, bearer, Checks(before, bearer));
      }
    }
  }
}
