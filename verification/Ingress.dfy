/** A tunnel's ingress rules: more specific ones first, one catch-all at the end. */
module Ingress {
  import opened Histories
  import opened Wrappers

  datatype Rule = Rule(hostname: Option<string>, path: Option<string>, service: string, options: string)

  const CATCH_ALL := Rule(None, None, "http_status:404", "")

  predicate IsWildcard(r: Rule) {
    r.hostname.Some? && r.hostname.value != "" && r.hostname.value[0] == '*'
  }

  /** Longer paths weigh more, and any path more than none. */
  function Weight(r: Rule): nat {
    match r.path
    case None => 0
    case Some(path) => |path| + 1
  }

  /** Exact hostnames before wildcards, longer paths before shorter ones. */
  predicate NotAfter(a: Rule, b: Rule) {
    if IsWildcard(a) == IsWildcard(b) then Weight(a) >= Weight(b) else IsWildcard(b)
  }

  predicate Ordered(rules: seq<Rule>) {
    forall i, j :: 0 <= i < j < |rules| ==> NotAfter(rules[i], rules[j])
  }

  function WithHosts(rules: seq<Rule>): seq<Rule> {
    if rules == [] then []
    else WithHosts(Init(rules)) + if Last(rules).hostname.Some? then [Last(rules)] else []
  }

  /** Behind every rule it need not stand before. */
  function Inserted(rules: seq<Rule>, r: Rule): seq<Rule> {
    if rules == [] || NotAfter(Last(rules), r) then rules + [r] else Inserted(Init(rules), r) + [Last(rules)]
  }

  function Sorted(rules: seq<Rule>): seq<Rule> {
    if rules == [] then [] else Inserted(Sorted(Init(rules)), Last(rules))
  }

  function SortIngress(rules: seq<Rule>): seq<Rule> {
    Sorted(WithHosts(rules)) + [CATCH_ALL]
  }

  lemma {:induction false} WithHostsAre(rules: seq<Rule>)
    ensures forall r :: r in WithHosts(rules) <==> r in rules && r.hostname.Some?
  {
    if rules != [] {
      WithHostsAre(Init(rules));
      assert rules == Init(rules) + [Last(rules)];
    }
  }

  lemma {:induction false} WithHostsConcat(a: seq<Rule>, b: seq<Rule>)
    ensures WithHosts(a + b) == WithHosts(a) + WithHosts(b)
  {
    if b == [] {
      assert a + b == a;
    } else {
      assert Init(a + b) == a + Init(b) && Last(a + b) == Last(b);
      WithHostsConcat(a, Init(b));
    }
  }

  lemma {:induction false} AllHaveHosts(rules: seq<Rule>)
    requires forall r :: r in rules ==> r.hostname.Some?
    ensures WithHosts(rules) == rules
  {
    if rules != [] {
      assert rules == Init(rules) + [Last(rules)];
      AllHaveHosts(Init(rules));
    }
  }

  lemma {:induction false} InsertedIs(rules: seq<Rule>, r: Rule)
    requires Ordered(rules)
    ensures Ordered(Inserted(rules, r))
    ensures multiset(Inserted(rules, r)) == multiset(rules) + multiset{r}
  {
    if rules != [] && !NotAfter(Last(rules), r) {
      var before, last := Init(rules), Last(rules);
      InsertedIs(before, r);
      assert rules == before + [last];
      var front := Inserted(before, r);
      forall i | 0 <= i < |front|
        ensures NotAfter(front[i], last)
      {
        assert front[i] in multiset(front);
        if front[i] != r {
          var j :| 0 <= j < |before| && before[j] == front[i];
          assert NotAfter(rules[j], rules[|before|]);
        }
      }
    } else if rules != [] {
      forall i | 0 <= i < |rules|
        ensures NotAfter(rules[i], r)
      {
        assert i < |rules| - 1 ==> NotAfter(rules[i], Last(rules));
      }
    }
  }

  /** Sorting keeps the rules and puts them in order. */
  lemma {:induction false} SortedIs(rules: seq<Rule>)
    ensures Ordered(Sorted(rules)) && multiset(Sorted(rules)) == multiset(rules)
  {
    if rules != [] {
      SortedIs(Init(rules));
      InsertedIs(Sorted(Init(rules)), Last(rules));
      assert rules == Init(rules) + [Last(rules)];
    }
  }

  /** The rules that share a place in the order. */
  function Alike(rules: seq<Rule>, r: Rule): seq<Rule> {
    if rules == [] then []
    else Alike(Init(rules), r) + if NotAfter(Last(rules), r) && NotAfter(r, Last(rules)) then [Last(rules)] else []
  }

  lemma {:induction false} AlikeInserted(rules: seq<Rule>, r: Rule, x: Rule)
    ensures Alike(Inserted(rules, r), x) == Alike(rules, x) + Alike([r], x)
  {
    assert Init([r]) == [] && Alike([], x) == [];
    if rules == [] || NotAfter(Last(rules), r) {
      Push(rules, r);
    } else {
      AlikeInserted(Init(rules), r, x);
      Push(Inserted(Init(rules), r), Last(rules));
      assert Alike(Init(rules), x) + [] == Alike(Init(rules), x);
    }
  }

  /** The sort is stable: rules that share a place keep the user's order. */
  lemma {:induction false} SortedIsStable(rules: seq<Rule>, x: Rule)
    ensures Alike(Sorted(rules), x) == Alike(rules, x)
  {
    if rules != [] {
      SortedIsStable(Init(rules), x);
      AlikeInserted(Sorted(Init(rules)), Last(rules), x);
      assert Init([Last(rules)]) == [] && Alike([], x) == [];
    }
  }

  /** What is written: the rules with a hostname, in order, and the catch-all once, last. */
  lemma SortIngressIs(rules: seq<Rule>)
    ensures var out := SortIngress(rules);
            && |out| > 0 && Last(out) == CATCH_ALL
            && Ordered(Init(out)) && multiset(Init(out)) == multiset(WithHosts(rules))
            && (forall r :: r in out && r.hostname.Some? <==> r in rules && r.hostname.Some?)
            && (forall i :: 0 <= i < |out| - 1 ==> out[i].hostname.Some?)
  {
    var out, sorted := SortIngress(rules), Sorted(WithHosts(rules));
    SortedIs(WithHosts(rules));
    WithHostsAre(rules);
    assert Init(out) == sorted;
    forall r
      ensures r in sorted <==> r in WithHosts(rules)
    {
      assert r in sorted <==> r in multiset(sorted);
    }
  }

  /** Sorting what is sorted changes nothing. */
  lemma SortTwice(rules: seq<Rule>)
    ensures WithHosts(SortIngress(rules)) == Sorted(WithHosts(rules))
    ensures SortIngress(SortIngress(rules)) == SortIngress(rules)
  {
    var sorted := Sorted(WithHosts(rules));
    SortIngressIs(rules);
    WithHostsConcat(sorted, [CATCH_ALL]);
    assert Init([CATCH_ALL]) == [] && WithHosts([CATCH_ALL]) == [];
    assert forall r :: r in sorted ==> r.hostname.Some? by {
      SortedIs(WithHosts(rules));
      WithHostsAre(rules);
      assert forall r :: r in sorted <==> r in multiset(sorted);
    }
    AllHaveHosts(sorted);
    assert sorted + [] == sorted;
    SortedIs(WithHosts(rules));
    OrderedStays(sorted);
  }

  lemma {:induction false} OrderedStays(rules: seq<Rule>)
    requires Ordered(rules)
    ensures Sorted(rules) == rules
  {
    if rules != [] {
      assert rules == Init(rules) + [Last(rules)];
      assert forall i :: 0 <= i < |Init(rules)| ==> Init(rules)[i] == rules[i];
      OrderedStays(Init(rules));
    }
  }

  // ----- Which rule answers -----

  predicate Starred(hostname: Option<string>) {
    hostname.Some? && hostname.value != "" && hostname.value[0] == '*'
  }

  predicate NoLonger(a: Option<string>, b: Option<string>) {
    a.Some? ==> b.Some? && |a.value| <= |b.value|
  }

  /** Rules are tried from the top, and `fits` says which match a request. Its rule is one with an exact
      hostname if any of those matches, else one with a wildcard if any does, with the longest path among
      them, and the catch-all only if no rule with a hostname matches. */
  lemma FirstMatch(rules: seq<Rule>, fits: Rule -> bool, i: nat)
    requires var out := SortIngress(rules); i < |out| && fits(out[i]) && forall j :: 0 <= j < i ==> !fits(out[j])
    ensures var answer := SortIngress(rules)[i];
            && (forall r :: r in rules && r.hostname.Some? && fits(r) ==>
                  && answer in rules && answer.hostname.Some?
                  && (Starred(answer.hostname) ==> Starred(r.hostname))
                  && (Starred(answer.hostname) == Starred(r.hostname) ==> NoLonger(r.path, answer.path)))
            && ((forall r :: r in rules && r.hostname.Some? ==> !fits(r)) ==> answer == Rule(None, None, "http_status:404", ""))
  {
    var out := SortIngress(rules);
    SortIngressIs(rules);
    hide SortIngress, WithHosts;
    assert out[|out| - 1] == CATCH_ALL;
    forall r | r in rules && r.hostname.Some? && fits(r)
      ensures i < |out| - 1 && (out[i] == r || NotAfter(out[i], r))
    {
      assert r in out;
      var j :| 0 <= j < |out| && out[j] == r;
      assert i <= j < |out| - 1;
      if i < j {
        assert NotAfter(Init(out)[i], Init(out)[j]);
      }
    }
    assert out[i] in out;
  }
}
