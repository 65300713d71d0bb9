/** The request list of the live demo: at most LIMIT requests in LIMIT_WINDOW milliseconds, then
    every request is refused until a cooldown has passed. Arrival times are fractional. */
module RequestStream {
  const ROWS: nat := 6
  const LIMIT: nat := 5
  const LIMIT_WINDOW: real := 2000.0
  const COOLDOWN: real := 5000.0

  datatype State = State(limited: set<nat>, recent: seq<real>, total: nat, blocked: real)

  const START := State({}, [], ROWS, 0.0)

  /** The arrivals that are still in the window at `at`, in order. */
  function Within(arrivals: seq<real>, at: real): seq<real> {
    if arrivals == [] then []
    else
      var last := |arrivals| - 1;
      Within(arrivals[..last], at) + if at - arrivals[last] < LIMIT_WINDOW then [arrivals[last]] else []
  }

  function Next(s: State, at: real): State {
    var recent, row := Within(s.recent, at), s.total;
    var starts := at >= s.blocked && |recent| >= LIMIT;
    State(if at < s.blocked || starts then s.limited + {row} else s.limited,
          recent + [at],
          s.total + 1,
          if starts then at + COOLDOWN else s.blocked)
  }

  class Stream {
    var limited: set<nat>
    var recent: seq<real>
    var total: nat
    var blocked: real

    ghost function View(): State
      reads this
    {
      State(limited, recent, total, blocked)
    }

    constructor ()
      ensures View() == START
    {
      limited, recent, total, blocked := {}, [], ROWS, 0.0;
    }

    method Arrived(at: real)
      modifies this
      ensures View() == Next(old(View()), at)
    {
      recent := Within(recent, at);
      var row := total;
      total := total + 1;
      if at < blocked {
        limited := limited + {row};
      } else if |recent| >= LIMIT {
        limited := limited + {row};
        blocked := at + COOLDOWN;
      }
      recent := recent + [at];
    }
  }

  /** The state after the first `n` arrivals of a history. */
  function After(arrivals: seq<real>, n: nat): State
    requires n <= |arrivals|
  {
    if n == 0 then START else Next(After(arrivals, n - 1), arrivals[n - 1])
  }

  ghost predicate InTime(arrivals: seq<real>) {
    && (forall i :: 0 <= i < |arrivals| ==> arrivals[i] >= 0.0)
    && (forall i :: 0 < i < |arrivals| ==> arrivals[i - 1] <= arrivals[i])
  }

  // ----- The same decisions, read off the full history -----

  /** Which of the first `n` arrivals came less than LIMIT_WINDOW before `at`. */
  ghost function Lately(arrivals: seq<real>, n: nat, at: real): set<nat>
    requires n <= |arrivals|
  {
    set j: nat | j < n && at - arrivals[j] < LIMIT_WINDOW
  }

  /** Arrival `i` finds LIMIT earlier ones in the window, whatever was trimmed since. */
  ghost predicate Crowded(arrivals: seq<real>, i: nat)
    requires i < |arrivals|
  {
    |Lately(arrivals, i, arrivals[i])| >= LIMIT
  }

  lemma {:induction false} WithinCounts(arrivals: seq<real>, n: nat, at: real)
    requires n <= |arrivals|
    ensures |Within(arrivals[..n], at)| == |Lately(arrivals, n, at)|
  {
    if n > 0 {
      WithinCounts(arrivals, n - 1, at);
      assert arrivals[..n][..n - 1] == arrivals[..n - 1];
      assert Lately(arrivals, n, at)
             == Lately(arrivals, n - 1, at) + if at - arrivals[n - 1] < LIMIT_WINDOW then {n - 1} else {};
    }
  }

  /** Arrival `i` comes less than COOLDOWN after one of the blocks started. */
  ghost predicate Cooling(arrivals: seq<real>, blocks: set<nat>, i: nat)
    requires i < |arrivals| && forall j :: j in blocks ==> j < |arrivals|
  {
    exists j :: j in blocks && arrivals[i] < arrivals[j] + COOLDOWN
  }

  /** Which of the first `n` arrivals started a block: those that found the window full and no
      block in force. */
  ghost function Blocks(arrivals: seq<real>, n: nat): (blocks: set<nat>)
    requires n <= |arrivals|
    ensures forall j :: j in blocks ==> j < n
  {
    if n == 0 then {}
    else
      var before := Blocks(arrivals, n - 1);
      if Crowded(arrivals, n - 1) && !Cooling(arrivals, before, n - 1) then before + {n - 1} else before
  }

  ghost predicate Refused(arrivals: seq<real>, i: nat)
    requires i < |arrivals|
  {
    Crowded(arrivals, i) || Cooling(arrivals, Blocks(arrivals, i), i)
  }

  lemma {:induction false} BlocksStay(arrivals: seq<real>, m: nat, n: nat)
    requires m <= n <= |arrivals|
    ensures Blocks(arrivals, m) <= Blocks(arrivals, n)
    decreases n
  {
    if m < n {
      BlocksStay(arrivals, m, n - 1);
    }
  }

  /** Trimming twice is trimming once, at the later time. */
  lemma {:induction false} TrimAgain(arrivals: seq<real>, early: real, late: real)
    requires early <= late
    ensures Within(Within(arrivals, early), late) == Within(arrivals, late)
  {
    if arrivals != [] {
      var last := |arrivals| - 1;
      TrimAgain(arrivals[..last], early, late);
      var kept := Within(arrivals[..last], early);
      assert (kept + [arrivals[last]])[..|kept|] == kept;
      assert kept + [] == kept && Within(kept, late) + [] == Within(kept, late);
    }
  }

  /** The blocked-until time is the end of the latest block there was. */
  ghost predicate BlockedUntil(arrivals: seq<real>, n: nat, blocked: real)
    requires n <= |arrivals|
  {
    && (forall j :: j in Blocks(arrivals, n) ==> arrivals[j] + COOLDOWN <= blocked)
    && (blocked == 0.0 || exists j :: j in Blocks(arrivals, n) && blocked == arrivals[j] + COOLDOWN)
  }

  /** The trimmed list is what the full history holds in the window, whenever it is looked at. */
  lemma {:induction false} TrimmedRecent(arrivals: seq<real>, n: nat, at: real)
    requires InTime(arrivals) && n <= |arrivals|
    requires n > 0 ==> arrivals[n - 1] <= at
    ensures Within(After(arrivals, n).recent, at) == Within(arrivals[..n], at)
  {
    if n > 0 {
      var last := arrivals[n - 1];
      var kept := Within(arrivals[..n - 1], last);
      TrimmedRecent(arrivals, n - 1, last);
      assert After(arrivals, n).recent == kept + [last];
      TrimAgain(arrivals[..n - 1], last, at);
      WithinMore(kept, last, at);
      WithinMore(arrivals[..n - 1], last, at);
      hide Within, After;
      assert arrivals[..n] == arrivals[..n - 1] + [last];
    }
  }

  lemma WithinMore(arrivals: seq<real>, last: real, at: real)
    ensures Within(arrivals + [last], at) == Within(arrivals, at) + if at - last < LIMIT_WINDOW then [last] else []
  {
    assert (arrivals + [last])[..|arrivals|] == arrivals;
  }

  /** The handler's count of the trimmed list decides as the count of the full history. */
  lemma SameCount(arrivals: seq<real>, n: nat)
    requires InTime(arrivals) && n < |arrivals|
    ensures |Within(After(arrivals, n).recent, arrivals[n])| >= LIMIT <==> Crowded(arrivals, n)
  {
    TrimmedRecent(arrivals, n, arrivals[n]);
    WithinCounts(arrivals, n, arrivals[n]);
  }

  lemma BeforeDeadline(arrivals: seq<real>, n: nat, blocked: real)
    requires InTime(arrivals) && n < |arrivals| && BlockedUntil(arrivals, n, blocked)
    ensures arrivals[n] < blocked <==> Cooling(arrivals, Blocks(arrivals, n), n)
  {
  }

  lemma NextDeadline(arrivals: seq<real>, n: nat, blocked: real)
    requires InTime(arrivals) && n < |arrivals| && BlockedUntil(arrivals, n, blocked)
    ensures BlockedUntil(arrivals, n + 1,
                         if Crowded(arrivals, n) && arrivals[n] >= blocked then arrivals[n] + COOLDOWN else blocked)
  {
    BeforeDeadline(arrivals, n, blocked);
    hide Crowded, Cooling, InTime;
    assert Blocks(arrivals, n + 1)
           == Blocks(arrivals, n) + if Crowded(arrivals, n) && arrivals[n] >= blocked then {n} else {};
  }

  lemma NoDeadline(arrivals: seq<real>)
    ensures BlockedUntil(arrivals, 0, After(arrivals, 0).blocked)
  {
  }

  /** The one deadline kept covers exactly the cooldowns of all blocks so far. */
  lemma {:induction false} OneDeadline(arrivals: seq<real>, n: nat)
    requires InTime(arrivals) && n <= |arrivals|
    ensures BlockedUntil(arrivals, n, After(arrivals, n).blocked)
  {
    hide *;
    if n == 0 {
      NoDeadline(arrivals);
    } else {
      OneDeadline(arrivals, n - 1);
      BlockedAfter(arrivals, n - 1);
      NextDeadline(arrivals, n - 1, After(arrivals, n - 1).blocked);
    }
  }

  lemma BlockedAfter(arrivals: seq<real>, n: nat)
    requires InTime(arrivals) && n < |arrivals|
    ensures var blocked := After(arrivals, n).blocked;
            After(arrivals, n + 1).blocked
            == if Crowded(arrivals, n) && arrivals[n] >= blocked then arrivals[n] + COOLDOWN else blocked
  {
    SameCount(arrivals, n);
    hide Crowded, Within, InTime;
    assert After(arrivals, n + 1) == Next(After(arrivals, n), arrivals[n]);
  }

  lemma {:induction false} RowsSoFar(arrivals: seq<real>, n: nat)
    requires n <= |arrivals|
    ensures After(arrivals, n).total == ROWS + n
    ensures forall row :: row in After(arrivals, n).limited ==> row < ROWS + n
  {
    if n > 0 {
      RowsSoFar(arrivals, n - 1);
    }
  }

  lemma DecidedOnArrival(arrivals: seq<real>, i: nat)
    requires InTime(arrivals) && i < |arrivals|
    ensures ROWS + i in Next(After(arrivals, i), arrivals[i]).limited <==> Refused(arrivals, i)
  {
    var s, at := After(arrivals, i), arrivals[i];
    RowsSoFar(arrivals, i);
    OneDeadline(arrivals, i);
    BeforeDeadline(arrivals, i, s.blocked);
    SameCount(arrivals, i);
  }

  /** Keeping only the recent arrivals and one deadline decides every arrival as the full
      history would: the refused rows are exactly those. */
  lemma {:induction false} DecisionsAgree(arrivals: seq<real>, n: nat, i: nat)
    requires InTime(arrivals) && i < n <= |arrivals|
    ensures ROWS + i in After(arrivals, n).limited <==> Refused(arrivals, i)
  {
    if i < n - 1 {
      DecisionsAgree(arrivals, n - 1, i);
      RowsSoFar(arrivals, n - 1);
    } else {
      DecidedOnArrival(arrivals, i);
    }
  }

  /** How many of the first `n` arrivals came in [lo, hi) and kept their row out of `limited`. */
  function Admitted(arrivals: seq<real>, limited: set<nat>, n: nat, lo: real, hi: real): nat
    requires n <= |arrivals|
  {
    if n == 0 then 0
    else
      Admitted(arrivals, limited, n - 1, lo, hi)
      + (if lo <= arrivals[n - 1] < hi && ROWS + n - 1 !in limited then 1 else 0)
  }

  lemma {:induction false} AdmittedAreRecent(arrivals: seq<real>, limited: set<nat>, n: nat, lo: real, at: real)
    requires n <= |arrivals| && at < lo + LIMIT_WINDOW
    ensures Admitted(arrivals, limited, n, lo, lo + LIMIT_WINDOW) <= |Within(arrivals[..n], at)|
  {
    if n > 0 {
      AdmittedAreRecent(arrivals, limited, n - 1, lo, at);
      assert arrivals[..n][..n - 1] == arrivals[..n - 1];
    }
  }

  /** At most LIMIT rows are admitted in any half-open interval as long as the window. */
  lemma {:induction false} AdmittedPerWindow(arrivals: seq<real>, n: nat, lo: real)
    requires InTime(arrivals) && n <= |arrivals|
    ensures Admitted(arrivals, After(arrivals, |arrivals|).limited, n, lo, lo + LIMIT_WINDOW) <= LIMIT
  {
    if n > 0 {
      AdmittedPerWindow(arrivals, n - 1, lo);
      var at, limited := arrivals[n - 1], After(arrivals, |arrivals|).limited;
      if at < lo + LIMIT_WINDOW && ROWS + n - 1 !in limited {
        DecisionsAgree(arrivals, |arrivals|, n - 1);
        WithinCounts(arrivals, n - 1, at);
        AdmittedAreRecent(arrivals, limited, n - 1, lo, at);
      }
    }
  }

  /** Once arrival `i` starts a block, every later arrival less than COOLDOWN after it is
      refused. */
  lemma CooldownRefuses(arrivals: seq<real>, i: nat, j: nat)
    requires InTime(arrivals) && i < j < |arrivals|
    requires After(arrivals, i + 1).blocked != After(arrivals, i).blocked
    requires arrivals[j] < arrivals[i] + COOLDOWN
    ensures ROWS + i in After(arrivals, |arrivals|).limited && ROWS + j in After(arrivals, |arrivals|).limited
  {
    hide After, InTime, Refused;
    BlockStarts(arrivals, i);
    BlocksStay(arrivals, i + 1, j);
    RefusedWhile(arrivals, i, j);
    DecisionsAgree(arrivals, |arrivals|, i);
    DecisionsAgree(arrivals, |arrivals|, j);
  }

  lemma BlockStarts(arrivals: seq<real>, i: nat)
    requires InTime(arrivals) && i < |arrivals| && After(arrivals, i + 1).blocked != After(arrivals, i).blocked
    ensures i in Blocks(arrivals, i + 1) && Refused(arrivals, i)
  {
    BlockedAfter(arrivals, i);
    OneDeadline(arrivals, i);
    BeforeDeadline(arrivals, i, After(arrivals, i).blocked);
    hide After, BlockedUntil, Crowded, Cooling, InTime;
  }

  lemma RefusedWhile(arrivals: seq<real>, i: nat, j: nat)
    requires i < j < |arrivals| && i in Blocks(arrivals, j) && arrivals[j] < arrivals[i] + COOLDOWN
    ensures Refused(arrivals, j)
  {
    hide Blocks, Crowded;
  }

  // ----- Which arrivals are refused -----

  /** Arrival `i` starts a block: LIMIT earlier ones came less than LIMIT_WINDOW before it, and it
      comes at least COOLDOWN after each arrival that started one. */
  ghost predicate Starts(arrivals: seq<real>, i: nat)
    requires i < |arrivals|
  {
    && |set j: nat | j < i && arrivals[i] - arrivals[j] < LIMIT_WINDOW| >= LIMIT
    && forall j: nat :: j < i && Starts(arrivals, j) ==> arrivals[i] - arrivals[j] >= COOLDOWN
  }

  lemma {:induction false} BlocksAre(arrivals: seq<real>, n: nat)
    requires n <= |arrivals|
    ensures forall j: nat :: j in Blocks(arrivals, n) <==> j < n && Starts(arrivals, j)
  {
    if n > 0 {
      BlocksAre(arrivals, n - 1);
      assert Lately(arrivals, n - 1, arrivals[n - 1]) == set j: nat | j < n - 1 && arrivals[n - 1] - arrivals[j] < LIMIT_WINDOW;
    }
  }

  /** A row is refused exactly if LIMIT earlier requests came less than LIMIT_WINDOW before it, or one
      less than COOLDOWN before it started a block; every other row is admitted. */
  lemma RefusedIff(arrivals: seq<real>, i: nat)
    requires InTime(arrivals) && i < |arrivals|
    ensures ROWS + i in After(arrivals, |arrivals|).limited
            <==> || |set j: nat | j < i && arrivals[i] - arrivals[j] < LIMIT_WINDOW| >= LIMIT
                 || exists j: nat :: j < i && Starts(arrivals, j) && arrivals[i] - arrivals[j] < COOLDOWN
  {
    DecisionsAgree(arrivals, |arrivals|, i);
    BlocksAre(arrivals, i);
    assert Lately(arrivals, i, arrivals[i]) == set j: nat | j < i && arrivals[i] - arrivals[j] < LIMIT_WINDOW;
    if Cooling(arrivals, Blocks(arrivals, i), i) {
      var j :| j in Blocks(arrivals, i) && arrivals[i] < arrivals[j] + COOLDOWN;
      assert Starts(arrivals, j);
    }
  }
}
