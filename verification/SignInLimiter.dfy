/** Failed sign-ins per address: after MAX_FAILURES within FAILURE_WINDOW of the first, that
    address waits until the window ends. The clock is an integer number of nanoseconds. */
module SignInLimiter {
  import opened Histories

  const MAX_FAILURES: nat := 5
  const FAILURE_WINDOW: nat := 300_000_000_000

  type Address = string

  /** How many failures are stored for an address, and when the first of them happened. */
  datatype Entry = Entry(count: nat, first: int)

  type Table = map<Address, Entry>

  function Prune(table: Table, now: int): Table {
    map a | a in table && now - table[a].first < FAILURE_WINDOW :: table[a]
  }

  function Record(table: Table, address: Address, now: int): Table {
    var entry := if address in table then table[address] else Entry(0, now);
    table[address := entry.(count := entry.count + 1)]
  }

  predicate AtLimit(table: Table, address: Address) {
    address in table && table[address].count >= MAX_FAILURES
  }

  /** The limiter as it is shared by the request handlers: only the check prunes. */
  class Limiter {
    var failures: Table

    constructor ()
      ensures failures == map[]
    {
      failures := map[];
    }

    method Blocked(address: Address, now: int) returns (blocked: bool)
      modifies this
      ensures failures == Prune(old(failures), now)
      ensures blocked == AtLimit(failures, address)
      ensures blocked <==> var was := old(failures);
                           address in was && now - was[address].first < FAILURE_WINDOW && was[address].count >= MAX_FAILURES
    {
      failures := map a | a in failures && now - failures[a].first < FAILURE_WINDOW :: failures[a];
      blocked := address in failures && failures[address].count >= MAX_FAILURES;
    }

    method Failed(address: Address, now: int)
      modifies this
      ensures failures == Record(old(failures), address, now)
    {
      if address !in failures {
        failures := failures[address := Entry(0, now)];
      }
      failures := failures[address := failures[address].(count := failures[address].count + 1)];
    }
  }

  // ----- Sign-ins in flight: check, verify, record -----

  /** One step of the protocol. A sign-in that passes its check is pending until its password
      was verified; it then either settles (right password, or the verification itself failed)
      or is recorded as a failure. Every step carries its own clock reading. */
  datatype Event =
    | Check(address: Address, at: int)
    | Settled(address: Address, at: int)
    | Failure(address: Address, at: int)

  datatype State = State(table: Table, pending: multiset<Address>)

  function Next(s: State, e: Event): State {
    match e
    case Check(address, at) =>
      var table := Prune(s.table, at);
      State(table, if AtLimit(table, address) then s.pending else s.pending + multiset{address})
    case Settled(address, _) =>
      State(s.table, s.pending - multiset{address})
    case Failure(address, at) =>
      State(Record(s.table, address, at), s.pending - multiset{address})
  }

  function Run(events: seq<Event>): State {
    if events == [] then State(map[], multiset{}) else Next(Run(Init(events)), Last(events))
  }

  /** An interleaving the server can produce: only pending sign-ins settle or fail, and the
      clock readings never decrease. */
  ghost predicate Legal(events: seq<Event>) {
    events == [] ||
    var before, e := Init(events), Last(events);
    && Legal(before)
    && (e.Check? || e.address in Run(before).pending)
    && (before != [] ==> Last(before).at <= e.at)
  }

  /** At every moment at most `k` sign-ins from `address` are in flight. */
  ghost predicate AtMostInFlight(events: seq<Event>, address: Address, k: nat) {
    && Run(events).pending[address] <= k
    && (events != [] ==> AtMostInFlight(Init(events), address, k))
  }

  /** The failures recorded for `address` in the half-open interval [lo, hi). */
  function FailuresIn(events: seq<Event>, address: Address, lo: int, hi: int): nat {
    if events == [] then 0
    else
      var e := Last(events);
      FailuresIn(Init(events), address, lo, hi)
      + (if e.Failure? && e.address == address && lo <= e.at < hi then 1 else 0)
  }

  function Stored(table: Table, address: Address): nat {
    if address in table then table[address].count else 0
  }

  /** The stored count plus the sign-ins that could still raise it never exceed the limit by
      more than the concurrency allows, whatever other addresses' checks prune in between. */
  lemma {:induction false} StoredCountBound(events: seq<Event>, address: Address, k: nat)
    requires Legal(events) && AtMostInFlight(events, address, k) && k >= 1
    ensures Stored(Run(events).table, address) + Run(events).pending[address] <= MAX_FAILURES + k - 1
    ensures address in Run(events).table ==> Run(events).table[address].count >= 1
  {
    if events != [] {
      StoredCountBound(Init(events), address, k);
    }
  }

  /** What holds until the interval starting at `lo` has passed: failures inside it belong to
      the window that was open when it began (whose first failure is older) or to the single
      window that can be opened during it. */
  lemma {:induction false} WindowsInInterval(events: seq<Event>, address: Address, k: nat, lo: int)
    requires Legal(events) && AtMostInFlight(events, address, k) && k >= 1
    requires events != [] ==> Last(events).at < lo + FAILURE_WINDOW
    ensures
      var failures := FailuresIn(events, address, lo, lo + FAILURE_WINDOW);
      var bound := MAX_FAILURES + k - 1;
      var table := Run(events).table;
      && (events == [] || Last(events).at < lo ==> failures == 0)
      && (if address !in table then failures <= bound - 1
          else if table[address].first < lo then failures <= table[address].count - 1
          else failures <= bound - 1 + table[address].count)
      && (address in table ==> events != [] && table[address].first <= Last(events).at)
  {
    if events != [] {
      var before := Init(events);
      WindowsInInterval(before, address, k, lo);
      StoredCountBound(before, address, k);
      StoredCountBound(events, address, k);
    }
  }

  /** In every interleaving with at most `k` sign-ins of an address in flight, any half-open
      interval as long as the window holds fewer than twice the largest stored count. */
  lemma {:induction false} FailuresPerInterval(events: seq<Event>, address: Address, k: nat, lo: int)
    requires Legal(events) && AtMostInFlight(events, address, k) && k >= 1
    ensures FailuresIn(events, address, lo, lo + FAILURE_WINDOW) <= 2 * (MAX_FAILURES + k - 1) - 1
  {
    if events != [] && Last(events).at >= lo + FAILURE_WINDOW {
      FailuresPerInterval(Init(events), address, k, lo);
    } else {
      WindowsInInterval(events, address, k, lo);
      StoredCountBound(events, address, k);
    }
  }

  // ----- Sign-ins one at a time -----

  /** A whole sign-in attempt that nothing else interleaves with. */
  datatype Attempt = Attempt(address: Address, at: int, wrong: bool)

  function AfterAttempt(table: Table, a: Attempt): Table {
    var pruned := Prune(table, a.at);
    if AtLimit(pruned, a.address) || !a.wrong then pruned else Record(pruned, a.address, a.at)
  }

  function AfterAttempts(attempts: seq<Attempt>): Table {
    if attempts == [] then map[] else AfterAttempt(AfterAttempts(Init(attempts)), Last(attempts))
  }

  /** Whether attempt `a` reaches the password check and gets it wrong. */
  predicate Fails(table: Table, a: Attempt) {
    a.wrong && !AtLimit(Prune(table, a.at), a.address)
  }

  function FailedAttempts(attempts: seq<Attempt>, address: Address, lo: int, hi: int): nat {
    if attempts == [] then 0
    else
      var before, a := Init(attempts), Last(attempts);
      FailedAttempts(before, address, lo, hi)
      + (if Fails(AfterAttempts(before), a) && a.address == address && lo <= a.at < hi then 1 else 0)
  }

  ghost predicate InOrder(attempts: seq<Attempt>) {
    forall i, j :: 0 <= i < j < |attempts| ==> attempts[i].at <= attempts[j].at
  }

  /** The same attempts as protocol steps. */
  function Interleaved(attempts: seq<Attempt>): seq<Event> {
    if attempts == [] then []
    else
      var before, a := Init(attempts), Last(attempts);
      var check := Interleaved(before) + [Check(a.address, a.at)];
      if AtLimit(Prune(AfterAttempts(before), a.at), a.address) then check
      else check + [if a.wrong then Failure(a.address, a.at) else Settled(a.address, a.at)]
  }

  /** What one more step does to a run and to everything measured along it. */
  lemma PushStep(events: seq<Event>, e: Event, address: Address, k: nat, lo: int, hi: int)
    requires Legal(events) && AtMostInFlight(events, address, k)
    requires e.Check? || e.address in Run(events).pending
    requires events != [] ==> Last(events).at <= e.at
    requires Next(Run(events), e).pending[address] <= k
    ensures events + [e] != [] && Last(events + [e]) == e
    ensures Run(events + [e]) == Next(Run(events), e)
    ensures Legal(events + [e]) && AtMostInFlight(events + [e], address, k)
    ensures FailuresIn(events + [e], address, lo, hi) == FailuresIn(events, address, lo, hi)
              + if e.Failure? && e.address == address && lo <= e.at < hi then 1 else 0
  {
    Push(events, e);
  }

  ghost predicate SameRun(attempts: seq<Attempt>, address: Address, lo: int, hi: int) {
    var events := Interleaved(attempts);
    && Run(events) == State(AfterAttempts(attempts), multiset{})
    && Legal(events)
    && AtMostInFlight(events, address, 1)
    && FailuresIn(events, address, lo, hi) == FailedAttempts(attempts, address, lo, hi)
    && (events == [] <==> attempts == [])
    && (events != [] ==> Last(events).at == Last(attempts).at)
  }

  lemma AttemptExtendsRun(attempts: seq<Attempt>, address: Address, lo: int, hi: int)
    requires attempts != []
    requires Init(attempts) != [] ==> Last(Init(attempts)).at <= Last(attempts).at
    requires SameRun(Init(attempts), address, lo, hi)
    ensures SameRun(attempts, address, lo, hi)
  {
    var before, a := Init(attempts), Last(attempts);
    var events, table := Interleaved(before), Prune(AfterAttempts(before), a.at);
    var checked := events + [Check(a.address, a.at)];
    PushStep(events, Check(a.address, a.at), address, 1, lo, hi);
    if AtLimit(table, a.address) {
      assert Interleaved(attempts) == checked;
    } else {
      assert Run(checked) == State(table, multiset{a.address});
      var verdict := if a.wrong then Failure(a.address, a.at) else Settled(a.address, a.at);
      PushStep(checked, verdict, address, 1, lo, hi);
      assert Interleaved(attempts) == checked + [verdict];
      assert Run(checked + [verdict]).pending == multiset{};
    }
  }

  /** One attempt at a time is the interleaving with a single sign-in in flight. */
  lemma {:induction false} AttemptsAreInterleavings(attempts: seq<Attempt>, address: Address, lo: int, hi: int)
    requires InOrder(attempts)
    ensures SameRun(attempts, address, lo, hi)
  {
    if attempts != [] {
      AttemptsAreInterleavings(Init(attempts), address, lo, hi);
      AttemptExtendsRun(attempts, address, lo, hi);
    }
  }

  /** Signing in one attempt at a time, an address fails at most 2 * MAX_FAILURES - 1 times in
      any half-open interval as long as the window. */
  lemma FailedSignInsPerInterval(attempts: seq<Attempt>, address: Address, lo: int)
    requires InOrder(attempts)
    ensures FailedAttempts(attempts, address, lo, lo + FAILURE_WINDOW) <= 2 * MAX_FAILURES - 1
  {
    AttemptsAreInterleavings(attempts, address, lo, lo + FAILURE_WINDOW);
    FailuresPerInterval(Interleaved(attempts), address, 1, lo);
  }

  lemma PushAttempt(attempts: seq<Attempt>, a: Attempt, address: Address, lo: int, hi: int)
    ensures AfterAttempts(attempts + [a]) == AfterAttempt(AfterAttempts(attempts), a)
    ensures FailedAttempts(attempts + [a], address, lo, hi) == FailedAttempts(attempts, address, lo, hi)
              + if Fails(AfterAttempts(attempts), a) && a.address == address && lo <= a.at < hi then 1 else 0
  {
    Push(attempts, a);
  }

  /** `n` wrong attempts in a row all count while the stored count has room for them, in the
      window the first of them finds or opens. */
  lemma {:induction false} Burst(attempts: seq<Attempt>, a: Attempt, n: nat, lo: int, hi: int)
    requires a.wrong && lo <= a.at < hi && n > 0
    requires Stored(Prune(AfterAttempts(attempts), a.at), a.address) + n <= MAX_FAILURES
    ensures
      var was, more := Prune(AfterAttempts(attempts), a.at), attempts + seq(n, _ => a);
      && FailedAttempts(more, a.address, lo, hi) == FailedAttempts(attempts, a.address, lo, hi) + n
      && a.address in AfterAttempts(more)
      && AfterAttempts(more)[a.address]
         == Entry(Stored(was, a.address) + n, if a.address in was then was[a.address].first else a.at)
  {
    if n == 1 {
      assert attempts + seq(n, _ => a) == attempts + [a];
      PushAttempt(attempts, a, a.address, lo, hi);
    } else {
      Burst(attempts, a, n - 1, lo, hi);
      var before := attempts + seq(n - 1, _ => a);
      assert attempts + seq(n, _ => a) == before + [a];
      PushAttempt(before, a, a.address, lo, hi);
    }
  }

  /** The bound is exact: a window with one early failure and the rest just before it closes,
      followed at once by a full one, has 2 * MAX_FAILURES - 1 failures in one interval. */
  lemma BoundIsAttained(address: Address) returns (attempts: seq<Attempt>, lo: int)
    ensures InOrder(attempts)
    ensures FailedAttempts(attempts, address, lo, lo + FAILURE_WINDOW) == 2 * MAX_FAILURES - 1
  {
    lo := 1;
    var hi := lo + FAILURE_WINDOW;
    var first := [Attempt(address, 0, true)];
    var late, next := Attempt(address, FAILURE_WINDOW - 1, true), Attempt(address, FAILURE_WINDOW, true);
    var second := first + seq(MAX_FAILURES - 1, _ => late);
    attempts := second + seq(MAX_FAILURES, _ => next);
    assert Init(first) == [];
    Burst(first, late, MAX_FAILURES - 1, lo, hi);
    Burst(second, next, MAX_FAILURES, lo, hi);
  }

  // ----- The bound with sign-ins in flight -----

  /** `n` sign-ins of an address start, all at once. */
  function Checked(events: seq<Event>, address: Address, at: int, n: nat): seq<Event> {
    if n == 0 then events else Checked(events, address, at, n - 1) + [Check(address, at)]
  }

  /** `n` of its sign-ins in flight fail. */
  function Missed(events: seq<Event>, address: Address, at: int, n: nat): seq<Event> {
    if n == 0 then events else Missed(events, address, at, n - 1) + [Failure(address, at)]
  }

  /** `n` at once: all are checked, then all fail. */
  function Together(events: seq<Event>, address: Address, at: int, n: nat): seq<Event> {
    Missed(Checked(events, address, at, n), address, at, n)
  }

  /** `n` sign-ins fail one after the other. */
  function OneByOne(events: seq<Event>, address: Address, at: int, n: nat): seq<Event> {
    if n == 0 then events else Together(OneByOne(events, address, at, n - 1), address, at, 1)
  }

  /** A run with at most `k` sign-ins of an address in flight, up to time `at`. */
  ghost predicate Until(events: seq<Event>, address: Address, at: int, k: nat) {
    Legal(events) && AtMostInFlight(events, address, k) && (events != [] ==> Last(events).at <= at)
  }

  /** The window the address is in, and how many failures it holds; no window counts none. */
  function Window(table: Table, address: Address, at: int): Entry {
    if address in table then table[address] else Entry(0, at)
  }

  lemma OneStarts(events: seq<Event>, address: Address, at: int, k: nat, lo: int, hi: int)
    requires Until(events, address, at, k) && Run(events).pending[address] < k
    requires !AtLimit(Prune(Run(events).table, at), address)
    ensures var after := events + [Check(address, at)];
            && Until(after, address, at, k)
            && Run(after).table == Prune(Run(events).table, at)
            && Run(after).pending[address] == Run(events).pending[address] + 1
            && FailuresIn(after, address, lo, hi) == FailuresIn(events, address, lo, hi)
  {
    PushStep(events, Check(address, at), address, k, lo, hi);
  }

  lemma OneMisses(events: seq<Event>, address: Address, at: int, k: nat, lo: int, hi: int)
    requires Until(events, address, at, k) && Run(events).pending[address] > 0
    ensures var after := events + [Failure(address, at)];
            && Until(after, address, at, k)
            && Run(after).table == Record(Run(events).table, address, at)
            && Run(after).pending[address] == Run(events).pending[address] - 1
            && FailuresIn(after, address, lo, hi) == FailuresIn(events, address, lo, hi) + if lo <= at < hi then 1 else 0
  {
    PushStep(events, Failure(address, at), address, k, lo, hi);
  }

  lemma PruneTwice(table: Table, at: int)
    ensures Prune(Prune(table, at), at) == Prune(table, at)
  {
  }

  lemma {:induction false} AllStart(events: seq<Event>, address: Address, at: int, n: nat, k: nat, lo: int, hi: int)
    requires Until(events, address, at, k) && Run(events).pending[address] + n <= k
    requires !AtLimit(Prune(Run(events).table, at), address)
    ensures var after := Checked(events, address, at, n);
            && Until(after, address, at, k)
            && Run(after).pending[address] == Run(events).pending[address] + n
            && Run(after).table == (if n == 0 then Run(events).table else Prune(Run(events).table, at))
            && FailuresIn(after, address, lo, hi) == FailuresIn(events, address, lo, hi)
  {
    hide Until, Run, FailuresIn, Prune, AtLimit;
    if n > 0 {
      AllStart(events, address, at, n - 1, k, lo, hi);
      PruneTwice(Run(events).table, at);
      OneStarts(Checked(events, address, at, n - 1), address, at, k, lo, hi);
    }
  }

  lemma {:induction false} AllMiss(events: seq<Event>, address: Address, at: int, n: nat, k: nat, lo: int, hi: int)
    requires Until(events, address, at, k) && n <= Run(events).pending[address]
    ensures var after, was := Missed(events, address, at, n), Window(Run(events).table, address, at);
            && Until(after, address, at, k)
            && Run(after).pending[address] == Run(events).pending[address] - n
            && (n > 0 ==> address in Run(after).table)
            && Window(Run(after).table, address, at) == Entry(was.count + n, was.first)
            && FailuresIn(after, address, lo, hi) == FailuresIn(events, address, lo, hi) + if lo <= at < hi then n else 0
  {
    if n > 0 {
      hide Until, Run, FailuresIn;
      AllMiss(events, address, at, n - 1, k, lo, hi);
      OneMisses(Missed(events, address, at, n - 1), address, at, k, lo, hi);
    }
  }

  lemma AllTogether(events: seq<Event>, address: Address, at: int, n: nat, k: nat, lo: int, hi: int)
    requires Until(events, address, at, k) && Run(events).pending[address] == 0 && 0 < n <= k
    requires !AtLimit(Prune(Run(events).table, at), address)
    ensures var after := Together(events, address, at, n);
            var was := Window(Prune(Run(events).table, at), address, at);
            && Until(after, address, at, k) && Run(after).pending[address] == 0
            && address in Run(after).table && Run(after).table[address] == Entry(was.count + n, was.first)
            && FailuresIn(after, address, lo, hi) == FailuresIn(events, address, lo, hi) + if lo <= at < hi then n else 0
  {
    hide Until, Run, FailuresIn, Prune, AtLimit;
    AllStart(events, address, at, n, k, lo, hi);
    AllMiss(Checked(events, address, at, n), address, at, n, k, lo, hi);
  }

  lemma {:induction false} AllOneByOne(events: seq<Event>, address: Address, at: int, n: nat, k: nat, lo: int, hi: int)
    requires Until(events, address, at, k) && Run(events).pending[address] == 0 && 0 < n && 1 <= k
    requires Window(Prune(Run(events).table, at), address, at).count + n <= MAX_FAILURES
    ensures var after, was := OneByOne(events, address, at, n), Window(Prune(Run(events).table, at), address, at);
            && Until(after, address, at, k) && Run(after).pending[address] == 0
            && address in Run(after).table && Run(after).table[address] == Entry(was.count + n, was.first)
            && FailuresIn(after, address, lo, hi) == FailuresIn(events, address, lo, hi) + if lo <= at < hi then n else 0
  {
    hide Until, Run, FailuresIn, Together;
    if n > 1 {
      AllOneByOne(events, address, at, n - 1, k, lo, hi);
    } else {
      assert OneByOne(events, address, at, 0) == events;
    }
    AllTogether(OneByOne(events, address, at, n - 1), address, at, 1, k, lo, hi);
  }

  /** For every number of sign-ins in flight the bound is exact: the last of each window's
      failures come from sign-ins that passed their check together. */
  lemma InterleavedBoundIsAttained(address: Address, k: nat) returns (events: seq<Event>, lo: int)
    requires k >= 1
    ensures Legal(events) && AtMostInFlight(events, address, k)
    ensures FailuresIn(events, address, lo, lo + FAILURE_WINDOW) == 2 * (MAX_FAILURES + k - 1) - 1
  {
    lo := 1;
    var hi, late := lo + FAILURE_WINDOW, FAILURE_WINDOW - 1;
    assert Until([], address, 0, k) && Run([]).table == map[] && FailuresIn([], address, lo, hi) == 0;
    hide Run, FailuresIn, OneByOne, Together;
    AllOneByOne([], address, 0, 1, k, lo, hi);
    var early := OneByOne([], address, 0, 1);
    AllOneByOne(early, address, late, MAX_FAILURES - 2, k, lo, hi);
    var filling := OneByOne(early, address, late, MAX_FAILURES - 2);
    AllTogether(filling, address, late, k, k, lo, hi);
    var full := Together(filling, address, late, k);
    AllOneByOne(full, address, FAILURE_WINDOW, MAX_FAILURES - 1, k, lo, hi);
    var again := OneByOne(full, address, FAILURE_WINDOW, MAX_FAILURES - 1);
    AllTogether(again, address, FAILURE_WINDOW, k, k, lo, hi);
    events := Together(again, address, FAILURE_WINDOW, k);
  }
}
