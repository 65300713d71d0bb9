/** Taking down a tunnel whose rules spell a hostname in several ways: how often its plan deletes a
    record of that name. */
module RepeatedDeletions {
  import opened Accuracy
  import opened Characters
  import opened CloudAccount
  import opened Effects
  import opened Histories
  import opened Ingress
  import opened Planner
  import opened Plans
  import opened Readings
  import opened Wrappers

  function Times(steps: seq<Step>, record: nat): nat {
    if steps == [] then 0
    else Times(Init(steps), record) + if Last(steps).DeleteRecord? && Last(steps).record == record then 1 else 0
  }

  lemma {:induction false} TimesConcat(a: seq<Step>, b: seq<Step>, record: nat)
    ensures Times(a + b, record) == Times(a, record) + Times(b, record)
  {
    if b == [] {
      assert a + b == a;
    } else {
      TimesConcat(a, Init(b), record);
      assert Init(a + b) == a + Init(b) && Last(a + b) == Last(b);
    }
  }

  lemma {:induction false} DeletionsTimes(found: seq<Observed>, record: nat)
    ensures Times(Deletions(found), record) == Listed(found, record)
  {
    if found != [] {
      DeletionsTimes(Init(found), record);
      assert Init(Deletions(found)) == Deletions(Init(found));
    }
  }

  /** Of the records wanted every listing is chosen. */
  lemma {:induction false} ChosenTimes(records: seq<Observed>, want: Observed -> bool, o: Observed)
    requires forall i :: 0 <= i < |records| && records[i].id == o.id ==> records[i] == o
    ensures Listed(Chosen(records, want), o.id) == if want(o) then Listed(records, o.id) else 0
  {
    if records != [] {
      assert forall i :: 0 <= i < |Init(records)| ==> Init(records)[i] == records[i];
      ChosenTimes(Init(records), want, o);
      var before := Chosen(Init(records), want);
      Push(before, Last(records));
      assert before + [] == before;
    }
  }

  /** How many of the names are spellings of a name. */
  function Spellings(names: seq<string>, name: string): nat {
    if names == [] then 0 else Spellings(Init(names), name) + if Same(name, Last(names)) then 1 else 0
  }

  lemma ReleasedTimes(s: Snapshot, c: Cloud, hostname: string, id: nat, o: Observed)
    requires Tells(s, c) && o in s.records && o.owned && o.record.content == Tunnel(id)
    ensures Times(ReleaseSteps(s, hostname, id), o.id) == if Same(o.record.name, hostname) then Listed(s.records, o.id) else 0
  {
    DeletionsTimes(Chosen(s.records, OwnPointing(hostname, id)), o.id);
    ChosenTimes(s.records, OwnPointing(hostname, id), o);
  }

  lemma OneTimeMore(n: nat, m: nat)
    ensures (n + 1) * m == n * m + m
  {
  }

  /** Each hostname deletes each listing. */
  lemma {:induction false} DeletedTimes(s: Snapshot, c: Cloud, names: seq<string>, id: nat, o: Observed)
    requires Tells(s, c) && o in s.records && o.owned && o.record.content == Tunnel(id)
    ensures Times(ReleaseAll(s, names, id), o.id) == Spellings(names, o.record.name) * Listed(s.records, o.id)
  {
    if names != [] {
      hide Tells, Listed, ReleaseSteps, Same, Times;
      var before, last := Init(names), Last(names);
      DeletedTimes(s, c, before, id, o);
      TimesConcat(ReleaseAll(s, before, id), ReleaseSteps(s, last, id), o.id);
      ReleasedTimes(s, c, last, id, o);
      OneTimeMore(Spellings(before, o.record.name), Listed(s.records, o.id));
    }
  }

  lemma {:induction false} FindingIsSpellings(zone: string -> Option<string>, names: seq<string>, r: Record)
    requires forall g, h :: Same(g, h) ==> zone(g) == zone(h)
    requires zone(r.name) == Some(r.zone)
    ensures Finding(zone, names, r) == Spellings(names, r.name)
  {
    if names != [] {
      FindingIsSpellings(zone, Init(names), r);
      assert Same(r.name, Last(names)) ==> zone(r.name) == zone(Last(names));
    }
  }

  /** Taking down the tunnel deletes a record as often as the square of the number of routed hostnames
      that are spellings of its name. A hostname's zone is found by its spelling in lower case. */
  lemma TakenDownSquared(s: Snapshot, c: Cloud, o: Observed)
    requires s.tunnel.Some? && Reads(s, c, Hostnames(Routes(s)))
    requires forall g, h :: Same(g, h) ==> s.zone(g) == s.zone(h)
    requires o in s.records && o.owned && o.record.content == Tunnel(s.tunnel.value.id)
    ensures var m := Spellings(Hostnames(Routes(s)), o.record.name); m >= 1 && Times(RemoveTunnelSteps(s), o.id) == m * m
  {
    var id, names := s.tunnel.value.id, Hostnames(Routes(s));
    var config := if Routes(s) != [] then ConfigSteps(s, []) else [];
    var release := ReleaseAll(s, names, id);
    var k :| 0 <= k < |s.records| && s.records[k] == o;
    ListedOnce(s.records, k);
    var i := FoundOnce(s.zone, names, o.record);
    assert s.zone(o.record.name) == s.zone(names[i]);
    FindingIsSpellings(s.zone, names, o.record);
    DeletedTimes(s, c, names, id, o);
    TimesConcat(config, release, o.id);
    TimesConcat(config + release, [DeleteTunnel(id)], o.id);
    NeverDeletes(config, o.id);
    NeverDeletes([DeleteTunnel(id)], o.id);
  }

  lemma {:induction false} NeverDeletes(steps: seq<Step>, record: nat)
    requires forall i :: 0 <= i < |steps| ==> !steps[i].DeleteRecord?
    ensures Times(steps, record) == 0
  {
    if steps != [] {
      NeverDeletes(Init(steps), record);
    }
  }

  // ----- An account whose tunnel is taken down that way -----

  function TwoSpellings(): seq<Rule> {
    [Rule(Some("A.x"), None, "http", ""), Rule(Some("a.x"), None, "http", "")]
  }

  function OwnRecord(): Observed {
    Observed(1, Record("z", "a.x", CNAME, Tunnel(0), true, 1, None), true)
  }

  function ReadTwice(): Snapshot {
    Snapshot(Some(OwnTunnel(0, "t", 0, TwoSpellings())), [OwnRecord(), OwnRecord()], _ => Some("z"), [], "t")
  }

  function OneRecord(): Cloud {
    Cloud(map[1 := OwnRecord().record], map[0 := TunnelState("t", TwoSpellings(), 0)], 2)
  }

  lemma TwoRoutes()
    ensures Routes(ReadTwice()) == TwoSpellings()
  {
    var rules := TwoSpellings();
    assert Init(rules) == [rules[0]] && Init([rules[0]]) == [];
    assert WithHosts([]) == [] && WithHosts([rules[0]]) == [rules[0]];
    assert [rules[0]] + [Last(rules)] == rules;
  }

  lemma TwoNames()
    ensures Hostnames(TwoSpellings()) == ["A.x", "a.x"]
  {
    var rules := TwoSpellings();
    assert Init(rules) == [rules[0]] && Init([rules[0]]) == [];
    assert Hostnames([]) == [] && Hostnames([rules[0]]) == ["A.x"];
    assert ["A.x"][1..] == [] && !Less("a.x", "A.x");
    assert Planner.Inserted(["A.x"], "a.x") == ["A.x"] + Planner.Inserted([], "a.x");
  }

  lemma TwoListed()
    ensures Listed(ReadTwice().records, 1) == 2
  {
    var o := OwnRecord();
    assert Init(ReadTwice().records) == [o] && Init([o]) == [];
    assert Listed([], 1) == 0 && Listed([o], 1) == 1;
  }

  lemma TwoFinding()
    ensures Finding(ReadTwice().zone, ["A.x", "a.x"], OwnRecord().record) == Spellings(["A.x", "a.x"], "a.x") == 2
  {
    var zone, names, r := ReadTwice().zone, ["A.x", "a.x"], OwnRecord().record;
    assert Init(names) == ["A.x"] && Init(["A.x"]) == [];
    assert Same("a.x", "A.x") && Same("a.x", "a.x");
    assert Finding(zone, [], r) == 0 && Finding(zone, ["A.x"], r) == 1;
    assert Spellings([], "a.x") == 0 && Spellings(["A.x"], "a.x") == 1;
  }

  lemma TwoListings()
    ensures Reads(ReadTwice(), OneRecord(), ["A.x", "a.x"])
  {
    hide Listed, Finding;
    TwoListed();
    TwoFinding();
  }

  /** With rules for "A.x" and "a.x" and one record of theirs, the plan deletes it four times. */
  lemma DeletedFourTimes(comments: Comments)
    ensures Reads(ReadTwice(), OneRecord(), NamesRead(RemoveTunnel, ReadTwice()))
    ensures PlanFor(RemoveTunnel, ReadTwice()) == Plan(RemoveTunnelSteps(ReadTwice()))
    ensures Times(RemoveTunnelSteps(ReadTwice()), 1) == 4
    ensures !Accurate(Job(OneRecord(), RemoveTunnelSteps(ReadTwice()), comments))
  {
    var s, c, o, rules := ReadTwice(), OneRecord(), OwnRecord(), TwoSpellings();
    TwoRoutes();
    TwoNames();
    TwoListings();
    TwoFinding();
    assert rules[0].hostname == Some("A.x") && rules[1].hostname == Some("a.x") && s.records[0] == o;
    assert Same("a.x", "A.x") && Same("a.x", "a.x");
    assert Collide(s, 0, "A.x", "a.x", 0);
    hide TwoSpellings, OwnPointing, Same;
    assert RemoveTunnelSteps(s)[|RemoveTunnelSteps(s)| - 1].DeleteTunnel?;
    hide Reads, Tells, Accurate, Resolvable, Hostnames, Routes, RemoveTunnelSteps, Times, Spellings, Collide;
    TakenDownSquared(s, c, o);
    PlansAreAccurate(RemoveTunnel, s, c, comments);
  }
}
