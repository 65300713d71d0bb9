/** What it takes for a snapshot to be a reading of the account: its records are the answers to
    looking up the names a request depends on. */
module Readings {
  import opened Characters
  import opened CloudAccount
  import opened Histories
  import opened Ingress
  import opened Planner
  import opened Plans
  import opened Wrappers

  /** What the snapshot says of the account is so; a record listed twice is the same both times. */
  ghost predicate Tells(s: Snapshot, c: Cloud) {
    && Valid(c)
    && (s.tunnel.Some? ==>
          var t := s.tunnel.value;
          t.id in c.tunnels && c.tunnels[t.id] == TunnelState(t.name, t.ingress, t.version))
    && (forall i :: 0 <= i < |s.records| ==> s.records[i].id in c.records && c.records[s.records[i].id] == s.records[i].record)
    && (forall i, j :: 0 <= i < j < |s.records| && s.records[i].id == s.records[j].id ==> s.records[i] == s.records[j])
  }

  /** How often a record is listed. */
  function Listed(found: seq<Observed>, id: nat): nat {
    if found == [] then 0 else Listed(Init(found), id) + if Last(found).id == id then 1 else 0
  }

  /** Looking up a name finds the records of its zone that have it, ignoring case. */
  predicate Finds(zone: string -> Option<string>, name: string, r: Record) {
    zone(name) == Some(r.zone) && Same(r.name, name)
  }

  /** How many of the names find a record. */
  function Finding(zone: string -> Option<string>, names: seq<string>, r: Record): nat {
    if names == [] then 0 else Finding(zone, Init(names), r) + if Finds(zone, Last(names), r) then 1 else 0
  }

  /** The snapshot was read from the account by looking up the names: the answers stand one after
      another, so a record is listed once for each name that finds it. */
  ghost predicate Reads(s: Snapshot, c: Cloud, names: seq<string>) {
    Tells(s, c) && forall id :: id in c.records ==> Listed(s.records, id) == Finding(s.zone, names, c.records[id])
  }

  /** The names that are looked up for a request. */
  function NamesRead(intent: Intent, s: Snapshot): seq<string> {
    match intent
    case AddRoute(route) => [route.hostname]
    case RemoveRoute(hostname, _) => [hostname]
    case RemoveTunnel => Hostnames(Routes(s))
  }

  ghost predicate DifferentIds(found: seq<Observed>) {
    forall i, j :: 0 <= i < j < |found| ==> found[i].id != found[j].id
  }

  lemma {:induction false} ListedOnce(found: seq<Observed>, i: nat)
    requires i < |found|
    ensures Listed(found, found[i].id) >= 1
  {
    if i < |found| - 1 {
      ListedOnce(Init(found), i);
    }
  }

  lemma {:induction false} ListedTwice(found: seq<Observed>, i: nat, j: nat)
    requires i < j < |found| && found[i].id == found[j].id
    ensures Listed(found, found[i].id) >= 2
  {
    if j < |found| - 1 {
      ListedTwice(Init(found), i, j);
    } else {
      ListedOnce(Init(found), i);
    }
  }

  lemma OneNameOnce(zone: string -> Option<string>, name: string, r: Record)
    ensures Finding(zone, [name], r) == if Finds(zone, name, r) then 1 else 0
  {
    assert Init([name]) == [];
    assert Finding(zone, [], r) == 0;
  }

  /** With one name looked up, no record is listed twice. */
  lemma OneName(s: Snapshot, c: Cloud, name: string)
    requires Reads(s, c, [name])
    ensures DifferentIds(s.records)
  {
    forall i, j | 0 <= i < j < |s.records|
      ensures s.records[i].id != s.records[j].id
    {
      if s.records[i].id == s.records[j].id {
        ListedTwice(s.records, i, j);
        OneNameOnce(s.zone, name, c.records[s.records[i].id]);
      }
    }
  }

  lemma {:induction false} FoundOnce(zone: string -> Option<string>, names: seq<string>, r: Record) returns (i: nat)
    requires Finding(zone, names, r) >= 1
    ensures i < |names| && Finds(zone, names[i], r)
  {
    if Finds(zone, Last(names), r) {
      i := |names| - 1;
    } else {
      i := FoundOnce(zone, Init(names), r);
    }
  }

  lemma {:induction false} FoundTwice(zone: string -> Option<string>, names: seq<string>, r: Record) returns (i: nat, j: nat)
    requires Finding(zone, names, r) >= 2
    ensures i < j < |names| && Finds(zone, names[i], r) && Finds(zone, names[j], r)
  {
    if Finds(zone, Last(names), r) {
      j := |names| - 1;
      i := FoundOnce(zone, Init(names), r);
    } else {
      i, j := FoundTwice(zone, Init(names), r);
    }
  }
}
