/** `teitunnel protect`: a hostname's edge settings with the command's options applied, and the
    header rules replaced by name, ignoring case. */
module Protection {
  import opened Characters
  import opened Sequences
  import opened Wrappers

  datatype HeaderOp = Set | Add | Remove

  datatype HeaderRule = HeaderRule(name: string, op: HeaderOp, value: Option<string>)

  function Retain(list: seq<HeaderRule>, name: string): seq<HeaderRule> {
    if list == [] then []
    else (if Same(list[0].name, name) then [] else [list[0]]) + Retain(list[1..], name)
  }

  function Upserted(list: seq<HeaderRule>, rules: seq<HeaderRule>): seq<HeaderRule>
    decreases rules
  {
    if rules == [] then list else Upserted(Retain(list, rules[0].name) + [rules[0]], rules[1..])
  }

  method Upsert(list: seq<HeaderRule>, rules: seq<HeaderRule>) returns (result: seq<HeaderRule>)
    ensures result == Untouched(list, rules) + LastOf(rules)
  {
    result := list;
    for i := 0 to |rules|
      invariant Upserted(result, rules[i..]) == Upserted(list, rules)
    {
      assert rules[i..][0] == rules[i] && rules[i..][1..] == rules[i + 1..];
      result := Retain(result, rules[i].name);
      result := result + [rules[i]];
    }
    UpsertedIsClosed(list, rules);
  }

  // ----- What is left, and what comes after it -----

  predicate Touched(name: string, rules: seq<HeaderRule>) {
    exists i :: 0 <= i < |rules| && Same(name, rules[i].name)
  }

  /** The entries whose name no rule has, in order. */
  function Untouched(list: seq<HeaderRule>, rules: seq<HeaderRule>): seq<HeaderRule> {
    if list == [] then []
    else (if Touched(list[0].name, rules) then [] else [list[0]]) + Untouched(list[1..], rules)
  }

  /** The last rule for each name, in the order of those last rules. */
  function LastOf(rules: seq<HeaderRule>): seq<HeaderRule> {
    if rules == [] then []
    else (if Touched(rules[0].name, rules[1..]) then [] else [rules[0]]) + LastOf(rules[1..])
  }

  lemma TouchedFirst(name: string, rules: seq<HeaderRule>)
    requires rules != []
    ensures Touched(name, rules) <==> Same(name, rules[0].name) || Touched(name, rules[1..])
  {
    if Touched(name, rules[1..]) {
      var i :| 0 <= i < |rules[1..]| && Same(name, rules[1..][i].name);
      assert Same(name, rules[i + 1].name);
    }
    if Touched(name, rules) && !Same(name, rules[0].name) {
      var i :| 0 <= i < |rules| && Same(name, rules[i].name);
      assert rules[1..][i - 1] == rules[i];
    }
  }

  lemma {:induction false} UntouchedConcat(a: seq<HeaderRule>, b: seq<HeaderRule>, rules: seq<HeaderRule>)
    ensures Untouched(a + b, rules) == Untouched(a, rules) + Untouched(b, rules)
  {
    if a == [] {
      assert a + b == b;
    } else {
      Tail(a, b);
      UntouchedConcat(a[1..], b, rules);
      Assoc(if Touched(a[0].name, rules) then [] else [a[0]], Untouched(a[1..], rules), Untouched(b, rules));
    }
  }

  lemma {:induction false} RetainThenUntouched(list: seq<HeaderRule>, rules: seq<HeaderRule>)
    requires rules != []
    ensures Untouched(Retain(list, rules[0].name), rules[1..]) == Untouched(list, rules)
  {
    if list != [] {
      var kept := if Same(list[0].name, rules[0].name) then [] else [list[0]];
      RetainThenUntouched(list[1..], rules);
      TouchedFirst(list[0].name, rules);
      UntouchedConcat(kept, Retain(list[1..], rules[0].name), rules[1..]);
      assert Untouched([list[0]], rules[1..]) == if Touched(list[0].name, rules[1..]) then [] else [list[0]];
    }
  }

  /** Replacing rule by rule leaves the untouched entries followed by the last rule for each name. */
  lemma {:induction false} UpsertedIsClosed(list: seq<HeaderRule>, rules: seq<HeaderRule>)
    ensures Upserted(list, rules) == Untouched(list, rules) + LastOf(rules)
    decreases rules
  {
    if rules == [] {
      NothingTouched(list);
      assert list + [] == list;
    } else {
      var first, rest := rules[0], rules[1..];
      UpsertedIsClosed(Retain(list, first.name) + [first], rest);
      UntouchedConcat(Retain(list, first.name), [first], rest);
      RetainThenUntouched(list, rules);
      assert Untouched([first], rest) == if Touched(first.name, rest) then [] else [first];
      Assoc(Untouched(list, rules), Untouched([first], rest), LastOf(rest));
    }
  }

  lemma {:induction false} NothingTouched(list: seq<HeaderRule>)
    ensures Untouched(list, []) == list
  {
    if list != [] {
      NothingTouched(list[1..]);
      assert [list[0]] + list[1..] == list;
    }
  }

  lemma {:induction false} UntouchedTwice(list: seq<HeaderRule>, rules: seq<HeaderRule>)
    ensures Untouched(Untouched(list, rules), rules) == Untouched(list, rules)
  {
    if list != [] {
      UntouchedTwice(list[1..], rules);
      UntouchedConcat(if Touched(list[0].name, rules) then [] else [list[0]], Untouched(list[1..], rules), rules);
      assert Untouched([list[0]], rules) == if Touched(list[0].name, rules) then [] else [list[0]];
    }
  }

  lemma {:induction false} OwnRulesTouched(own: seq<HeaderRule>, rules: seq<HeaderRule>)
    requires forall r :: r in own ==> Touched(r.name, rules)
    ensures Untouched(LastOf(own), rules) == []
  {
    if own != [] {
      assert own[0] in own;
      OwnRulesTouched(own[1..], rules);
      UntouchedConcat(if Touched(own[0].name, own[1..]) then [] else [own[0]], LastOf(own[1..]), rules);
      assert Untouched([own[0]], rules) == [];
    }
  }

  /** Giving the same rules again changes nothing. */
  lemma UpsertTwice(list: seq<HeaderRule>, rules: seq<HeaderRule>)
    ensures Upserted(Upserted(list, rules), rules) == Upserted(list, rules)
  {
    var once := Untouched(list, rules) + LastOf(rules);
    assert Untouched(once, rules) == Untouched(list, rules) by {
      UntouchedConcat(Untouched(list, rules), LastOf(rules), rules);
      UntouchedTwice(list, rules);
      AllTouched(rules);
      OwnRulesTouched(rules, rules);
    }
    UpsertedIsClosed(list, rules);
    UpsertedIsClosed(once, rules);
  }

  lemma AllTouched(rules: seq<HeaderRule>)
    ensures forall r :: r in rules ==> Touched(r.name, rules)
  {
    forall r | r in rules
      ensures Touched(r.name, rules)
    {
      var i :| 0 <= i < |rules| && rules[i] == r;
      assert Same(r.name, rules[i].name);
    }
  }

  // ----- Names stay unique -----

  ghost predicate UniqueNames(list: seq<HeaderRule>) {
    list != [] ==> !Touched(list[0].name, list[1..]) && UniqueNames(list[1..])
  }

  lemma {:induction false} UntouchedNames(name: string, list: seq<HeaderRule>, rules: seq<HeaderRule>)
    ensures Touched(name, Untouched(list, rules)) ==> Touched(name, list)
    ensures Touched(name, LastOf(list)) ==> Touched(name, list)
  {
    if list != [] {
      UntouchedNames(name, list[1..], rules);
      TouchedFirst(name, list);
      TouchedConcat(name, if Touched(list[0].name, rules) then [] else [list[0]], Untouched(list[1..], rules));
      TouchedConcat(name, if Touched(list[0].name, list[1..]) then [] else [list[0]], LastOf(list[1..]));
    }
  }

  lemma TouchedConcat(name: string, a: seq<HeaderRule>, b: seq<HeaderRule>)
    ensures Touched(name, a + b) <==> Touched(name, a) || Touched(name, b)
  {
    if Touched(name, a) {
      var i :| 0 <= i < |a| && Same(name, a[i].name);
      assert Same(name, (a + b)[i].name);
    }
    if Touched(name, b) {
      var i :| 0 <= i < |b| && Same(name, b[i].name);
      assert Same(name, (a + b)[|a| + i].name);
    }
  }

  lemma {:induction false} UniqueAfter(list: seq<HeaderRule>, rules: seq<HeaderRule>)
    ensures UniqueNames(list) ==> UniqueNames(Untouched(list, rules))
    ensures UniqueNames(LastOf(list))
  {
    if list != [] {
      UniqueAfter(list[1..], rules);
      UntouchedNames(list[0].name, list[1..], rules);
      UniqueCons(list[0], Untouched(list[1..], rules));
      UniqueCons(list[0], LastOf(list[1..]));
    }
  }

  lemma UniqueCons(rule: HeaderRule, list: seq<HeaderRule>)
    ensures UniqueNames([rule] + list) <==> !Touched(rule.name, list) && UniqueNames(list)
    ensures [] + list == list
  {
    assert ([rule] + list)[1..] == list;
  }

  lemma {:induction false} UniqueConcat(a: seq<HeaderRule>, b: seq<HeaderRule>)
    requires UniqueNames(a) && UniqueNames(b)
    requires forall r :: r in a ==> !Touched(r.name, b)
    ensures UniqueNames(a + b)
  {
    if a == [] {
      assert a + b == b;
    } else {
      Tail(a, b);
      UniqueConcat(a[1..], b);
      TouchedConcat(a[0].name, a[1..], b);
    }
  }

  lemma {:induction false} UntouchedAvoid(list: seq<HeaderRule>, rules: seq<HeaderRule>)
    ensures forall r :: r in Untouched(list, rules) ==> !Touched(r.name, rules)
  {
    if list != [] {
      UntouchedAvoid(list[1..], rules);
    }
  }

  /** No header appears twice after an update if none did before. */
  lemma UpsertKeepsUnique(list: seq<HeaderRule>, rules: seq<HeaderRule>)
    requires UniqueNames(list)
    ensures UniqueNames(Upserted(list, rules))
  {
    UpsertedIsClosed(list, rules);
    UniqueAfter(list, rules);
    UniqueAfter(rules, []);
    UntouchedAvoid(list, rules);
    forall r | r in Untouched(list, rules)
      ensures !Touched(r.name, LastOf(rules))
    {
      UntouchedNames(r.name, rules, []);
    }
    UniqueConcat(Untouched(list, rules), LastOf(rules));
  }

  // ----- Which rule a header ends up with -----

  /** Rule `i` is the last one for its header, ignoring case. */
  predicate LastFor(rules: seq<HeaderRule>, i: nat)
    requires i < |rules|
  {
    forall j :: i < j < |rules| ==> !Same(rules[i].name, rules[j].name)
  }

  /** Entry `k` is the only one for its header. */
  predicate OnlyOne(list: seq<HeaderRule>, k: nat)
    requires k < |list|
  {
    forall m :: 0 <= m < |list| && Same(list[k].name, list[m].name) ==> m == k
  }

  /** Each header that has a rule carries its last rule and nothing else; every other entry is kept. */
  ghost predicate LastWins(list: seq<HeaderRule>, rules: seq<HeaderRule>, result: seq<HeaderRule>) {
    && (forall i :: 0 <= i < |rules| && LastFor(rules, i) ==>
          exists k :: 0 <= k < |result| && result[k] == rules[i] && OnlyOne(result, k))
    && (forall r: HeaderRule :: (forall i :: 0 <= i < |rules| ==> !Same(r.name, rules[i].name)) ==>
          multiset(result)[r] == multiset(list)[r])
  }

  lemma {:induction false} UntouchedCount(list: seq<HeaderRule>, rules: seq<HeaderRule>, r: HeaderRule)
    requires !Touched(r.name, rules)
    ensures multiset(Untouched(list, rules))[r] == multiset(list)[r]
  {
    if list != [] {
      UntouchedCount(list[1..], rules, r);
      hide Touched;
      assert list == [list[0]] + list[1..];
    }
  }

  lemma LastOfCount(rules: seq<HeaderRule>, r: HeaderRule)
    requires !Touched(r.name, rules)
    ensures multiset(LastOf(rules))[r] == 0
  {
    hide Touched, LastOf;
    LastOfAre(rules);
    AllTouched(rules);
    assert r in multiset(LastOf(rules)) <==> r in LastOf(rules);
  }

  lemma {:induction false} LastOfAre(rules: seq<HeaderRule>)
    ensures forall r :: r in LastOf(rules) ==> r in rules
    ensures forall i :: 0 <= i < |rules| && LastFor(rules, i) ==> rules[i] in LastOf(rules)
  {
    if rules != [] {
      var rest := rules[1..];
      LastOfAre(rest);
      assert rules == [rules[0]] + rest;
      forall i | 0 <= i < |rules| && LastFor(rules, i)
        ensures rules[i] in LastOf(rules)
      {
        if i == 0 {
          assert forall k :: 0 <= k < |rest| ==> rest[k] == rules[k + 1];
          assert !Touched(rules[0].name, rest);
        } else {
          LastInRest(rules, i);
        }
      }
    }
  }

  lemma LastInRest(rules: seq<HeaderRule>, i: nat)
    requires 0 < i < |rules| && LastFor(rules, i)
    ensures LastFor(rules[1..], i - 1) && rules[1..][i - 1] == rules[i]
  {
    assert forall j :: 0 <= j < |rules| - 1 ==> rules[1..][j] == rules[j + 1];
  }

  lemma {:induction false} UniqueAt(list: seq<HeaderRule>, k: nat, m: nat)
    requires UniqueNames(list) && k < |list| && m < |list| && Same(list[k].name, list[m].name)
    ensures k == m
  {
    if k > 0 && m > 0 {
      UniqueAt(list[1..], k - 1, m - 1);
    } else if k != m {
      LaterTouched(list, if k > 0 then k else m);
    }
  }

  lemma LaterTouched(list: seq<HeaderRule>, n: nat)
    requires 0 < n < |list| && Same(list[0].name, list[n].name)
    ensures Touched(list[0].name, list[1..])
  {
    assert list[1..][n - 1] == list[n];
  }

  lemma SameBack(a: string, b: string)
    ensures Same(a, b) <==> Same(b, a)
  {
  }

  lemma KeptAway(list: seq<HeaderRule>, rules: seq<HeaderRule>, i: nat, rule: HeaderRule, kept: seq<HeaderRule>)
    requires i < |rules| && rules[i] == rule && kept == Untouched(list, rules)
    ensures forall m :: 0 <= m < |kept| ==> !Same(rule.name, kept[m].name)
  {
    UntouchedAvoid(list, rules);
    forall m | 0 <= m < |kept|
      ensures !Same(rule.name, kept[m].name)
    {
      assert kept[m] in kept;
      SameBack(rules[i].name, kept[m].name);
    }
  }

  lemma LastIsOnly(list: seq<HeaderRule>, rules: seq<HeaderRule>, i: nat) returns (k: nat)
    requires i < |rules| && LastFor(rules, i)
    ensures var result := Untouched(list, rules) + LastOf(rules);
            k < |result| && result[k] == rules[i] && OnlyOne(result, k)
  {
    var kept, last := Untouched(list, rules), LastOf(rules);
    LastOfAre(rules);
    UniqueAfter(rules, []);
    var n :| 0 <= n < |last| && last[n] == rules[i];
    KeptAway(list, rules, i, last[n], kept);
    k := |kept| + n;
    forall m | 0 <= m < |last| && Same(last[n].name, last[m].name)
      ensures m == n
    {
      UniqueAt(last, n, m);
    }
    OnlyBehind(kept, last, n);
  }

  lemma OnlyBehind(kept: seq<HeaderRule>, last: seq<HeaderRule>, n: nat)
    requires n < |last| && OnlyOne(last, n)
    requires forall m :: 0 <= m < |kept| ==> !Same(last[n].name, kept[m].name)
    ensures OnlyOne(kept + last, |kept| + n)
  {
    hide Same;
    assert forall m :: 0 <= m < |kept| ==> (kept + last)[m] == kept[m];
    assert forall m :: 0 <= m < |last| ==> (kept + last)[|kept| + m] == last[m];
    assert forall m :: |kept| <= m < |kept + last| ==> (kept + last)[m] == last[m - |kept|];
  }

  lemma LastRuleWins(list: seq<HeaderRule>, rules: seq<HeaderRule>)
    ensures LastWins(list, rules, Untouched(list, rules) + LastOf(rules))
  {
    var result := Untouched(list, rules) + LastOf(rules);
    forall i | 0 <= i < |rules| && LastFor(rules, i)
      ensures exists k :: 0 <= k < |result| && result[k] == rules[i] && OnlyOne(result, k)
    {
      var k := LastIsOnly(list, rules, i);
    }
    forall r: HeaderRule | forall i :: 0 <= i < |rules| ==> !Same(r.name, rules[i].name)
      ensures multiset(result)[r] == multiset(list)[r]
    {
      UntouchedCount(list, rules, r);
      LastOfCount(rules, r);
    }
  }

  // ----- All options together -----

  datatype BotMode = Off | Challenge | Block

  datatype LimitAction = BlockRequests | ChallengeRequests

  datatype RateLimit = RateLimit(requests: nat, period: nat, action: LimitAction)

  datatype Edge = Edge(bots: BotMode, aiCrawlers: bool, rateLimit: Option<RateLimit>, bypassCache: bool,
                       requestHeaders: seq<HeaderRule>, responseHeaders: seq<HeaderRule>)

  const DEFAULT := Edge(Off, false, None, false, [], [])

  datatype Options = Options(off: bool, bots: Option<BotMode>, blockAi: bool, allowAi: bool,
                             rateLimit: Option<RateLimit>, noRateLimit: bool, bypassCache: bool, noBypassCache: bool,
                             clearHeaders: bool, setRequest: seq<HeaderRule>, removeRequest: seq<HeaderRule>,
                             setResponse: seq<HeaderRule>, addResponse: seq<HeaderRule>, removeResponse: seq<HeaderRule>)
  {
    function RequestRules(): seq<HeaderRule> {
      setRequest + removeRequest
    }

    function ResponseRules(): seq<HeaderRule> {
      setResponse + addResponse + removeResponse
    }
  }

  function Applied(o: Options, current: Edge): Edge {
    if o.off then DEFAULT
    else
      Edge(if o.bots.Some? then o.bots.value else current.bots,
           if o.allowAi then false else o.blockAi || current.aiCrawlers,
           if o.noRateLimit then None else if o.rateLimit.Some? then o.rateLimit else current.rateLimit,
           if o.noBypassCache then false else o.bypassCache || current.bypassCache,
           Upserted(if o.clearHeaders then [] else current.requestHeaders, o.RequestRules()),
           Upserted(if o.clearHeaders then [] else current.responseHeaders, o.ResponseRules()))
  }

  /** What the switches ask for: a negative one wins, and what no option names stays. */
  predicate SwitchesObeyed(o: Options, current: Edge, next: Edge) {
    && (o.bots.Some? ==> next.bots == o.bots.value)
    && (o.bots.None? ==> next.bots == current.bots)
    && (o.allowAi ==> next.aiCrawlers == false)
    && (!o.allowAi && o.blockAi ==> next.aiCrawlers == true)
    && (!o.allowAi && !o.blockAi ==> next.aiCrawlers == current.aiCrawlers)
    && (o.noRateLimit ==> next.rateLimit == None)
    && (!o.noRateLimit && o.rateLimit.Some? ==> next.rateLimit == o.rateLimit)
    && (!o.noRateLimit && o.rateLimit.None? ==> next.rateLimit == current.rateLimit)
    && (o.noBypassCache ==> next.bypassCache == false)
    && (!o.noBypassCache && o.bypassCache ==> next.bypassCache == true)
    && (!o.noBypassCache && !o.bypassCache ==> next.bypassCache == current.bypassCache)
  }

  method ApplySwitches(o: Options, current: Edge) returns (next: Edge)
    requires !o.off
    ensures SwitchesObeyed(o, current, next)
    ensures next == Applied(o, current).(requestHeaders := current.requestHeaders, responseHeaders := current.responseHeaders)
  {
    next := current;
    if o.bots.Some? {
      next := next.(bots := o.bots.value);
    }
    if o.blockAi {
      next := next.(aiCrawlers := true);
    }
    if o.allowAi {
      next := next.(aiCrawlers := false);
    }
    if o.rateLimit.Some? {
      next := next.(rateLimit := o.rateLimit);
    }
    if o.noRateLimit {
      next := next.(rateLimit := None);
    }
    if o.bypassCache {
      next := next.(bypassCache := true);
    }
    if o.noBypassCache {
      next := next.(bypassCache := false);
    }
  }

  method Apply(o: Options, current: Edge) returns (next: Edge)
    ensures next == Applied(o, current)
    ensures o.off ==>
              && next.bots == Off && next.aiCrawlers == false && next.rateLimit == None && next.bypassCache == false
              && next.requestHeaders == [] && next.responseHeaders == []
    ensures !o.off ==>
              && SwitchesObeyed(o, current, next)
              && LastWins(if o.clearHeaders then [] else current.requestHeaders, o.setRequest + o.removeRequest, next.requestHeaders)
              && LastWins(if o.clearHeaders then [] else current.responseHeaders,
                          o.setResponse + o.addResponse + o.removeResponse, next.responseHeaders)
  {
    hide LastWins, Untouched, LastOf, Upserted, LastFor, OnlyOne;
    if o.off {
      return DEFAULT;
    }
    next := ApplySwitches(o, current);
    if o.clearHeaders {
      next := next.(requestHeaders := [], responseHeaders := []);
    }
    UpsertedIsClosed(next.requestHeaders, o.RequestRules());
    UpsertedIsClosed(next.responseHeaders, o.ResponseRules());
    var request := Upsert(next.requestHeaders, o.setRequest + o.removeRequest);
    var response := Upsert(next.responseHeaders, o.setResponse + o.addResponse + o.removeResponse);
    LastRuleWins(next.requestHeaders, o.setRequest + o.removeRequest);
    LastRuleWins(next.responseHeaders, o.setResponse + o.addResponse + o.removeResponse);
    next := next.(requestHeaders := request, responseHeaders := response);
  }

  /** Running the command again with the same options changes nothing, whatever they are, and
      header names stay unique. */
  lemma ApplyTwice(o: Options, current: Edge)
    ensures Applied(o, Applied(o, current)) == Applied(o, current)
    ensures UniqueNames(current.requestHeaders) && UniqueNames(current.responseHeaders) ==>
              UniqueNames(Applied(o, current).requestHeaders) && UniqueNames(Applied(o, current).responseHeaders)
  {
    var request := if o.clearHeaders then [] else current.requestHeaders;
    var response := if o.clearHeaders then [] else current.responseHeaders;
    UpsertTwice(request, o.RequestRules());
    UpsertTwice(response, o.ResponseRules());
    if UniqueNames(request) && UniqueNames(response) {
      UpsertKeepsUnique(request, o.RequestRules());
      UpsertKeepsUnique(response, o.ResponseRules());
    }
  }
}
