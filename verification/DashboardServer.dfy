/** The dashboard's sign-in endpoint and its sessions: a login is limited per address, starts a
    session kept under a random token, and sessions older than SESSION_TTL are dropped lazily,
    by the next request that looks one up. Other requests are answered while a login waits for the
    password store, so a login is two steps here: it comes in, and its password is answered. */
module DashboardServer {
  import opened Wrappers
  import opened Histories
  import opened SignInLimiter

  const SESSION_TTL: nat := 43_200_000_000_000

  type Token = string

  /** What the password store answers; a login that is given up while waiting counts as
      `Unavailable`. */
  datatype Verified = Right | Wrong | Unavailable

  /** What reaches the server. `token` is what the random source yields, used only when the handler
      gets that far. */
  datatype Request =
    | Login(csrf: bool, address: Address, at: int)
    | Answer(address: Address, verified: Verified, token: Option<Token>, at: int)
    | Logout(cookie: Option<Token>, at: int)
    | Session(cookie: Option<Token>, at: int)

  const OK := 200
  const UNAUTHORIZED := 401
  const FORBIDDEN := 403
  const TOO_MANY_REQUESTS := 429
  const INTERNAL_SERVER_ERROR := 500

  datatype ServerState = ServerState(failures: Table, sessions: map<Token, int>)

  function Live(sessions: map<Token, int>, now: int): map<Token, int> {
    map t | t in sessions && now - sessions[t] < SESSION_TTL :: sessions[t]
  }

  /** The status a login is answered with at once; none if its password is to be verified. */
  function Refused(failures: Table, csrf: bool, address: Address, now: int): Option<nat> {
    if !csrf then Some(FORBIDDEN)
    else if AtLimit(Prune(failures, now), address) then Some(TOO_MANY_REQUESTS)
    else None
  }

  /** The status it is answered with once the password store has answered. */
  function Verdict(verified: Verified, token: Option<Token>): nat {
    if verified.Unavailable? then INTERNAL_SERVER_ERROR
    else if verified.Wrong? then UNAUTHORIZED
    else if token.None? then INTERNAL_SERVER_ERROR
    else OK
  }

  function Respond(s: ServerState, r: Request): ServerState {
    match r
    case Login(csrf, _, at) =>
      if csrf then s.(failures := Prune(s.failures, at)) else s
    case Answer(address, verified, token, at) =>
      var status := Verdict(verified, token);
      ServerState(if status == UNAUTHORIZED then Record(s.failures, address, at) else s.failures,
            if status == OK then s.sessions[token.value := at] else s.sessions)
    case Logout(cookie, _) =>
      if cookie.Some? then s.(sessions := s.sessions - {cookie.value}) else s
    case Session(cookie, at) =>
      if cookie.Some? then s.(sessions := Live(s.sessions, at)) else s
  }

  predicate SignedIn(s: ServerState, cookie: Option<Token>, now: int) {
    cookie.Some? && cookie.value in Live(s.sessions, now)
  }

  class Server {
    const failures: Limiter
    var sessions: map<Token, int>

    ghost function View(): ServerState
      reads this, failures
    {
      ServerState(failures.failures, sessions)
    }

    constructor ()
      ensures View() == ServerState(map[], map[])
      ensures fresh(failures)
    {
      failures := new Limiter();
      sessions := map[];
    }

    /** A login up to the question put to the password store. */
    method BeginLogin(csrf: bool, address: Address, now: int) returns (refused: Option<nat>)
      modifies failures
      ensures refused == Refused(old(View()).failures, csrf, address, now)
      ensures View() == Respond(old(View()), Login(csrf, address, now))
      ensures var was := old(failures.failures);
              var full := address in was && now - was[address].first < FAILURE_WINDOW && was[address].count >= MAX_FAILURES;
              && (!csrf ==> refused == Some(403) && failures.failures == was)
              && (csrf && full ==> refused == Some(429))
              && (csrf && !full ==> refused == None)
    {
      if !csrf {
        return Some(FORBIDDEN);
      }
      var blocked := failures.Blocked(address, now);
      return if blocked then Some(TOO_MANY_REQUESTS) else None;
    }

    /** A login from the password store's answer on. */
    method FinishLogin(address: Address, verified: Verified, token: Option<Token>, now: int) returns (status: nat)
      modifies this, failures
      ensures status == Verdict(verified, token)
      ensures View() == Respond(old(View()), Answer(address, verified, token, now))
      ensures verified == Unavailable ==> status == 500 && View() == old(View())
      ensures verified == Wrong ==>
                && status == 401 && sessions == old(sessions)
                && address in failures.failures
                && failures.failures[address].count
                   == (if address in old(failures.failures) then old(failures.failures)[address].count else 0) + 1
      ensures verified == Right && token == None ==> status == 500 && View() == old(View())
      ensures verified == Right && token != None ==>
                status == 200 && failures.failures == old(failures.failures) && sessions == old(sessions)[token.value := now]
    {
      if verified.Unavailable? {
        return INTERNAL_SERVER_ERROR;
      }
      if verified.Wrong? {
        failures.Failed(address, now);
        return UNAUTHORIZED;
      }
      if token.None? {
        return INTERNAL_SERVER_ERROR;
      }
      sessions := sessions[token.value := now];
      return OK;
    }

    /** A login during whose verification nothing else happens; it is answered at `later`. */
    method HandleLogin(csrf: bool, address: Address, now: int, verified: Verified, token: Option<Token>, later: int)
      returns (status: nat)
      modifies this, failures
      ensures var refused := Refused(old(View()).failures, csrf, address, now);
              var asked := Respond(old(View()), Login(csrf, address, now));
              && status == (if refused.Some? then refused.value else Verdict(verified, token))
              && View() == if refused.Some? then asked else Respond(asked, Answer(address, verified, token, later))
    {
      var refused := BeginLogin(csrf, address, now);
      if refused.Some? {
        return refused.value;
      }
      status := FinishLogin(address, verified, token, later);
    }

    method HandleLogout(cookie: Option<Token>, now: int)
      modifies this
      ensures View() == Respond(old(View()), Logout(cookie, now))
    {
      if cookie.Some? {
        sessions := sessions - {cookie.value};
      }
    }

    method SessionValid(cookie: Option<Token>, now: int) returns (valid: bool)
      modifies this
      ensures View() == Respond(old(View()), Session(cookie, now))
      ensures valid == SignedIn(old(View()), cookie, now)
    {
      if cookie.None? {
        return false;
      }
      sessions := map t | t in sessions && now - sessions[t] < SESSION_TTL :: sessions[t];
      valid := cookie.value in sessions;
    }
  }

  // ----- Whole histories -----

  function After(history: seq<Request>): ServerState {
    if history == [] then ServerState(map[], map[]) else Respond(After(Init(history)), Last(history))
  }

  /** The logins whose password is being verified, by address. */
  function Wait(failures: Table, waiting: multiset<Address>, r: Request): multiset<Address> {
    match r
    case Login(csrf, address, at) =>
      if Refused(failures, csrf, address, at).None? then waiting + multiset{address} else waiting
    case Answer(address, _, _, _) => waiting - multiset{address}
    case _ => waiting
  }

  function Waiting(history: seq<Request>): multiset<Address> {
    if history == [] then multiset{}
    else Wait(After(Init(history)).failures, Waiting(Init(history)), Last(history))
  }

  ghost predicate InTime(history: seq<Request>) {
    forall i, j :: 0 <= i < j < |history| ==> history[i].at <= history[j].at
  }

  /** Only logins that wait are answered. */
  ghost predicate Answered(history: seq<Request>) {
    history != [] ==>
      && Answered(Init(history))
      && (Last(history).Answer? ==> Last(history).address in Waiting(Init(history)))
  }

  /** At no time more than `k` logins from `address` wait. */
  ghost predicate AtMostWaiting(history: seq<Request>, address: Address, k: nat) {
    && Waiting(history)[address] <= k
    && (history != [] ==> AtMostWaiting(Init(history), address, k))
  }

  /** When the session under `token` began, going by the latest login or logout for it in the
      full history; nothing is ever dropped here. */
  function Started(history: seq<Request>, token: Token): Option<int> {
    if history == [] then None
    else
      var before, r := Init(history), Last(history);
      if r.Answer? && Verdict(r.verified, r.token) == OK && r.token.value == token then Some(r.at)
      else if r.Logout? && r.cookie == Some(token) then None
      else Started(before, token)
  }

  /** A stored session is the one that was started last; one that is missing was ended or has
      run out by now. */
  lemma {:induction false} StoredSessions(history: seq<Request>, token: Token)
    requires InTime(history)
    ensures
      var sessions, started := After(history).sessions, Started(history, token);
      && (token in sessions ==> started == Some(sessions[token]))
      && (token !in sessions && started.Some? ==>
            history != [] && Last(history).at - started.value >= SESSION_TTL)
  {
    if history != [] {
      StoredSessions(Init(history), token);
    }
  }

  /** Lazy pruning is invisible: a cookie is accepted exactly when the latest login or logout
      for it is a login less than SESSION_TTL ago. */
  lemma SessionsAgreeWithHistory(history: seq<Request>, token: Token, now: int)
    requires InTime(history + [Session(Some(token), now)])
    ensures SignedIn(After(history), Some(token), now)
            <==> Started(history, token).Some? && now - Started(history, token).value < SESSION_TTL
  {
    var asked := history + [Session(Some(token), now)];
    assert InTime(history) by {
      assert forall i :: 0 <= i < |history| ==> asked[i] == history[i];
    }
    assert history != [] ==> asked[|history| - 1].at <= asked[|history|].at;
    StoredSessions(history, token);
  }

  /** Logins from `address` answered "wrong password" in [lo, hi). */
  function Refusals(history: seq<Request>, address: Address, lo: int, hi: int): nat {
    if history == [] then 0
    else
      var r := Last(history);
      Refusals(Init(history), address, lo, hi)
      + (if && r.Answer? && r.address == address && lo <= r.at < hi
            && Verdict(r.verified, r.token) == UNAUTHORIZED then 1 else 0)
  }

  /** What the limiter sees of a request, if anything. */
  function Seen(r: Request): seq<Event> {
    match r
    case Login(csrf, address, at) => if csrf then [Check(address, at)] else []
    case Answer(address, verified, _, at) => [if verified.Wrong? then Failure(address, at) else Settled(address, at)]
    case _ => []
  }

  function Events(history: seq<Request>): seq<Event> {
    if history == [] then [] else Events(Init(history)) + Seen(Last(history))
  }

  lemma {:induction false} EventsInOrder(history: seq<Request>)
    requires InTime(history)
    ensures Events(history) != [] ==> history != [] && Last(Events(history)).at <= Last(history).at
  {
    if history != [] {
      EventsInOrder(Init(history));
    }
  }

  lemma TableAfter(s: ServerState, r: Request)
    ensures Respond(s, r).failures
            == match r
               case Login(csrf, _, at) => if csrf then Prune(s.failures, at) else s.failures
               case Answer(address, verified, _, at) => if verified.Wrong? then Record(s.failures, address, at) else s.failures
               case _ => s.failures
  {
    hide Prune, Record, Live;
  }

  lemma RequestAsEvent(s: ServerState, waiting: multiset<Address>, r: Request)
    ensures State(Respond(s, r).failures, Wait(s.failures, waiting, r))
            == if Seen(r) == [] then State(s.failures, waiting) else Next(State(s.failures, waiting), Seen(r)[0])
    ensures |Seen(r)| <= 1
    ensures Seen(r) != [] ==> Seen(r)[0].at == r.at && (Seen(r)[0].Check? || (r.Answer? && Seen(r)[0].address == r.address))
  {
    hide Prune, Record, AtLimit, Live, Respond;
    TableAfter(s, r);
    match r
    case Login(_, _, _) =>
    case Answer(_, _, _, _) =>
    case _ =>
  }

  lemma EventsAfter(history: seq<Request>)
    requires history != []
    ensures var before, seen := Events(Init(history)), Seen(Last(history));
            if seen == [] then Events(history) == before
            else Events(history) != [] && Init(Events(history)) == before && Last(Events(history)) == seen[0]
  {
    var before, r := Events(Init(history)), Last(history);
    if Seen(r) == [] {
      assert before + [] == before;
    } else {
      Push(before, Seen(r)[0]);
    }
  }

  /** The limiter's table and the waiting logins are those of the interleaving of checks and
      failures among all requests. */
  lemma {:induction false} LimiterSeesLogins(history: seq<Request>, address: Address, lo: int, hi: int)
    ensures Run(Events(history)) == State(After(history).failures, Waiting(history))
    ensures Refusals(history, address, lo, hi) == FailuresIn(Events(history), address, lo, hi)
  {
    if history != [] {
      hide Respond, Wait, Next, Events;
      LimiterSeesLogins(Init(history), address, lo, hi);
      RequestAsEvent(After(Init(history)), Waiting(Init(history)), Last(history));
      EventsAfter(history);
    } else {
      assert Events(history) == [];
    }
  }

  lemma {:induction false} EventsAreLegal(history: seq<Request>, address: Address, k: nat)
    requires InTime(history) && Answered(history) && AtMostWaiting(history, address, k)
    ensures Legal(Events(history)) && AtMostInFlight(Events(history), address, k)
  {
    if history != [] {
      var before, r := Init(history), Last(history);
      EventsAreLegal(before, address, k);
      EventsInOrder(before);
      assert before != [] ==> Last(before).at <= r.at;
      hide Seen, Events, Respond, Wait, Next, Run, Waiting, After, Refusals, FailuresIn, InTime;
      RequestAsEvent(After(before), Waiting(before), r);
      LimiterSeesLogins(before, address, 0, 0);
      LimiterSeesLogins(history, address, 0, 0);
      EventsAfter(history);
    }
  }

  /** Over any history of requests in which at most `k` logins from an address wait at any time, the
      address gets at most 2 * (MAX_FAILURES + k - 1) - 1 wrong passwords answered in any half-open
      interval as long as the window. */
  lemma RefusalsPerInterval(history: seq<Request>, address: Address, k: nat, lo: int)
    requires InTime(history) && Answered(history) && AtMostWaiting(history, address, k) && k >= 1
    ensures Refusals(history, address, lo, lo + FAILURE_WINDOW) <= 2 * (MAX_FAILURES + k - 1) - 1
  {
    EventsAreLegal(history, address, k);
    LimiterSeesLogins(history, address, lo, lo + FAILURE_WINDOW);
    FailuresPerInterval(Events(history), address, k, lo);
  }
}
