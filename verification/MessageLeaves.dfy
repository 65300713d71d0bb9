/** Which functions a group of messages is turned into: plain messages, and plurals grouped
    under their base name. The group is visited key by key. */
module MessageLeaves {
  import opened Characters
  import opened Histories
  import opened MessageNames
  import opened Wrappers

  const SUFFIXES: seq<string> := ["_zero", "_one", "_two", "_few", "_many", "_other"]

  datatype Value = Text(text: string) | Group | Other

  datatype Entry = Entry(key: string, value: Value)

  /** The text of the function's message, and whether it takes a count. */
  datatype Leaf = Leaf(text: string, plural: bool)

  type Leaves = map<string, Leaf>

  predicate EndsWith(s: string, suffix: string) {
    |suffix| <= |s| && s[|s| - |suffix|..] == suffix
  }

  function FirstBase(key: string, suffixes: seq<string>): (base: Option<string>)
    ensures base.Some? <==> exists i :: 0 <= i < |suffixes| && EndsWith(key, suffixes[i])
    ensures base.Some? ==> exists i :: 0 <= i < |suffixes| && key == base.value + suffixes[i]
  {
    if suffixes == [] then None
    else if EndsWith(key, suffixes[0]) then
      assert key == key[..|key| - |suffixes[0]|] + suffixes[0];
      Some(key[..|key| - |suffixes[0]|])
    else FirstBase(key, suffixes[1..])
  }

  /** The base name of a plural form. */
  function PluralBase(key: string): Option<string> {
    FirstBase(key, SUFFIXES)
  }

  /** A platform's own wording (`key@windows`) and anything but text define no function. */
  predicate Counts(key: string, value: Value) {
    value.Text? && '@' !in key
  }

  predicate IsPlain(e: Entry) {
    Counts(e.key, e.value) && PluralBase(e.key).None?
  }

  predicate IsForm(e: Entry, base: string) {
    Counts(e.key, e.value) && PluralBase(e.key) == Some(base)
  }

  /** Visiting one key; None where the build stops because a name is a message and a plural. */
  function Visit(leaves: Leaves, e: Entry): Option<Leaves> {
    if !Counts(e.key, e.value) then Some(leaves)
    else
      match PluralBase(e.key)
      case Some(base) =>
        var leaf := if base in leaves then leaves[base] else Leaf("", true);
        Some(leaves[base := if EndsWith(e.key, "_other") then leaf.(text := e.value.text) else leaf])
      case None =>
        if e.key in leaves then None else Some(leaves[e.key := Leaf(e.value.text, false)])
  }

  function Grouping(entries: seq<Entry>): Option<Leaves> {
    if entries == [] then Some(map[])
    else
      var before := Grouping(Init(entries));
      if before.None? then None else Visit(before.value, Last(entries))
  }

  method Place(before: Leaves, e: Entry) returns (result: Option<Leaves>)
    ensures result == Visit(before, e)
  {
    var leaves := before;
    if Counts(e.key, e.value) {
      var base := PluralBase(e.key);
      if base.Some? {
        if base.value !in leaves {
          leaves := leaves[base.value := Leaf("", true)];
        }
        if EndsWith(e.key, "_other") {
          leaves := leaves[base.value := leaves[base.value].(text := e.value.text)];
        }
        assert leaves == before[base.value := leaves[base.value]];
      } else {
        if e.key in leaves {
          return None;
        }
        leaves := leaves[e.key := Leaf(e.value.text, false)];
      }
    }
    return Some(leaves);
  }

  method GroupLeaves(entries: seq<Entry>) returns (result: Option<Leaves>)
    ensures result == Grouping(entries)
  {
    var leaves: Leaves := map[];
    for i := 0 to |entries|
      invariant Grouping(entries[..i]) == Some(leaves)
    {
      assert Init(entries[..i + 1]) == entries[..i] && Last(entries[..i + 1]) == entries[i];
      var placed := Place(leaves, entries[i]);
      if placed.None? {
        NothingAfter(entries, i + 1);
        return None;
      }
      leaves := placed.value;
    }
    assert entries[..|entries|] == entries;
    return Some(leaves);
  }

  lemma {:induction false} NothingAfter(entries: seq<Entry>, n: nat)
    requires n <= |entries| && Grouping(entries[..n]).None?
    ensures Grouping(entries).None?
    decreases |entries| - n
  {
    if n == |entries| {
      assert entries[..n] == entries;
    } else {
      assert Init(entries[..n + 1]) == entries[..n];
      NothingAfter(entries, n + 1);
    }
  }

  // ----- The leaves of a group, whatever the order -----

  type Node = map<string, Value>

  predicate HasText(node: Node, key: string) {
    key in node && Counts(key, node[key])
  }

  function LeafName(key: string): string {
    var base := PluralBase(key);
    if base.Some? then base.value else key
  }

  function LeafNames(node: Node): set<string> {
    set k | k in node && Counts(k, node[k]) :: LeafName(k)
  }

  predicate PlainIn(node: Node, name: string) {
    HasText(node, name) && PluralBase(name).None?
  }

  function LeafOf(node: Node, name: string): Leaf {
    var other := name + "_other";
    Leaf(if HasText(node, other) then node[other].text else if PlainIn(node, name) then node[name].text else "",
         !PlainIn(node, name))
  }

  function Grouped(node: Node): Leaves {
    map name | name in LeafNames(node) :: LeafOf(node, name)
  }

  function AsNode(entries: seq<Entry>): Node {
    if entries == [] then map[] else AsNode(Init(entries))[Last(entries).key := Last(entries).value]
  }

  ghost predicate Distinct(entries: seq<Entry>) {
    forall i, j :: 0 <= i < j < |entries| ==> entries[i].key != entries[j].key
  }

  /** No plural form is visited before the plain message of its base name. */
  ghost predicate PlainFirst(entries: seq<Entry>) {
    forall i, j :: 0 <= i < j < |entries| && IsPlain(entries[j]) ==> !IsForm(entries[i], entries[j].key)
  }

  lemma OtherForm(base: string)
    ensures PluralBase(base + "_other") == Some(base)
    ensures EndsWith(base + "_other", "_other")
  {
    var key := base + "_other";
    assert key[|base|..] == "_other" && key[|key| - 1] == 'r';
    assert EndsWith(key, SUFFIXES[5]);
    var i :| 0 <= i < |SUFFIXES| && key == PluralBase(key).value + SUFFIXES[i];
    assert SUFFIXES[i][|SUFFIXES[i]| - 1] == 'r';
    assert key[..|base|] == base && key[..|PluralBase(key).value|] == PluralBase(key).value;
  }

  lemma FormIsSuffixed(e: Entry, base: string)
    requires IsForm(e, base)
    ensures EndsWith(e.key, "_other") <==> e.key == base + "_other"
  {
    OtherForm(base);
    if EndsWith(e.key, "_other") {
      var stem := e.key[..|e.key| - |"_other"|];
      assert e.key == stem + "_other";
      OtherForm(stem);
    }
  }

  lemma LeafNamesGrow(node: Node, e: Entry)
    requires e.key !in node
    ensures LeafNames(node[e.key := e.value])
            == LeafNames(node) + if Counts(e.key, e.value) then {LeafName(e.key)} else {}
  {
    var more := node[e.key := e.value];
    forall name | name in LeafNames(node)
      ensures name in LeafNames(more)
    {
      var k :| k in node && Counts(k, node[k]) && LeafName(k) == name;
      assert k in more && Counts(k, more[k]);
    }
    if Counts(e.key, e.value) {
      assert e.key in more && Counts(e.key, more[e.key]);
    }
  }

  /** A new key leaves the other leaves alone. */
  lemma OtherLeavesStay(node: Node, e: Entry, name: string)
    requires e.key !in node && (Counts(e.key, e.value) ==> name != LeafName(e.key))
    ensures LeafOf(node[e.key := e.value], name) == LeafOf(node, name)
  {
    OtherForm(name);
  }

  lemma VisitForm(node: Node, e: Entry, base: string)
    requires e.key !in node && IsForm(e, base)
    ensures Visit(Grouped(node), e) == Some(Grouped(node[e.key := e.value]))
  {
    var more := node[e.key := e.value];
    var visited := Visit(Grouped(node), e).value;
    LeafNamesGrow(node, e);
    assert visited.Keys == Grouped(more).Keys;
    forall name | name in Grouped(more)
      ensures visited[name] == LeafOf(more, name)
    {
      if name == base {
        FormChangesLeaf(node, e, base);
        NoNameNoText(node, base);
      } else {
        OtherLeavesStay(node, e, name);
      }
    }
    assert visited == Grouped(more);
  }

  lemma FormChangesLeaf(node: Node, e: Entry, base: string)
    requires e.key !in node && IsForm(e, base)
    ensures var was := LeafOf(node, base);
            LeafOf(node[e.key := e.value], base)
            == if EndsWith(e.key, "_other") then was.(text := e.value.text) else was
  {
    FormIsSuffixed(e, base);
  }

  /** A name that is no leaf yet has neither a plain message nor an `_other` form. */
  lemma NoNameNoText(node: Node, name: string)
    ensures name !in LeafNames(node) ==> !PlainIn(node, name) && !HasText(node, name + "_other")
  {
    OtherForm(name);
    assert HasText(node, name + "_other") ==> LeafName(name + "_other") in LeafNames(node);
    assert PlainIn(node, name) ==> LeafName(name) in LeafNames(node);
  }

  lemma VisitPlain(node: Node, e: Entry)
    requires e.key !in node && IsPlain(e)
    ensures Visit(Grouped(node), e)
            == if e.key in LeafNames(node) then None else Some(Grouped(node[e.key := e.value]))
  {
    if e.key !in LeafNames(node) {
      var more := node[e.key := e.value];
      var visited := Visit(Grouped(node), e).value;
      LeafNamesGrow(node, e);
      assert visited.Keys == Grouped(more).Keys;
      forall name | name in Grouped(more)
        ensures visited[name] == LeafOf(more, name)
      {
        if name == e.key {
          NoNameNoText(node, e.key);
          OtherForm(e.key);
        } else {
          OtherLeavesStay(node, e, name);
        }
      }
      assert visited == Grouped(more);
    }
  }

  lemma VisitSkipped(node: Node, e: Entry)
    requires e.key !in node && !Counts(e.key, e.value)
    ensures Visit(Grouped(node), e) == Some(Grouped(node[e.key := e.value]))
  {
    var more := node[e.key := e.value];
    assert LeafNames(more) == LeafNames(node) by {
      LeafNamesGrow(node, e);
    }
    var before, after := Grouped(node), Grouped(more);
    forall name | name in LeafNames(node)
      ensures after[name] == before[name]
    {
      OtherLeavesStay(node, e, name);
    }
    assert before.Keys == after.Keys == LeafNames(node);
    assert before == after;
  }

  lemma {:induction false} NodeLookup(entries: seq<Entry>)
    requires Distinct(entries)
    ensures forall i :: 0 <= i < |entries| ==>
              entries[i].key in AsNode(entries) && AsNode(entries)[entries[i].key] == entries[i].value
    ensures forall k :: k in AsNode(entries) ==> exists i :: 0 <= i < |entries| && entries[i].key == k
  {
    if entries != [] {
      var before := Init(entries);
      NodeLookup(before);
      forall k | k in AsNode(entries)
        ensures exists i :: 0 <= i < |entries| && entries[i].key == k
      {
        if k == Last(entries).key {
          assert entries[|entries| - 1].key == k;
        } else {
          assert k in AsNode(before);
          var i :| 0 <= i < |before| && before[i].key == k;
          assert entries[i].key == k;
        }
      }
    }
  }

  lemma FormMakesLeaf(before: seq<Entry>, i: nat, base: string)
    requires Distinct(before) && i < |before| && IsForm(before[i], base)
    ensures base in LeafNames(AsNode(before))
  {
    NodeLookup(before);
    assert LeafName(before[i].key) in LeafNames(AsNode(before));
  }

  lemma LeafHasForm(before: seq<Entry>, e: Entry) returns (i: nat)
    requires Distinct(before) && e.key !in AsNode(before) && IsPlain(e)
    requires e.key in LeafNames(AsNode(before))
    ensures i < |before| && IsForm(before[i], e.key)
  {
    var node := AsNode(before);
    NodeLookup(before);
    var k :| k in node && Counts(k, node[k]) && LeafName(k) == e.key;
    i :| 0 <= i < |before| && before[i].key == k;
  }

  /** A plain message meets a leaf of its name exactly when one of its plural forms came first. */
  lemma MeetsForm(before: seq<Entry>, e: Entry)
    requires Distinct(before) && e.key !in AsNode(before) && IsPlain(e)
    ensures e.key in LeafNames(AsNode(before)) <==> exists i :: 0 <= i < |before| && IsForm(before[i], e.key)
  {
    if e.key in LeafNames(AsNode(before)) {
      var i := LeafHasForm(before, e);
    }
    if i :| 0 <= i < |before| && IsForm(before[i], e.key) {
      FormMakesLeaf(before, i, e.key);
    }
  }

  /** Grouping succeeds exactly when no plural form is visited before the plain message of its
      name, and then the order no longer shows: the leaves are those of the set of messages. */
  lemma {:induction false} GroupingIsOrderFree(entries: seq<Entry>)
    requires Distinct(entries)
    ensures Grouping(entries) == if PlainFirst(entries) then Some(Grouped(AsNode(entries))) else None
  {
    if entries == [] {
      assert LeafNames(map[]) == {};
    } else {
      var before, e := Init(entries), Last(entries);
      assert entries == before + [e];
      GroupingIsOrderFree(before);
      PlainFirstStep(before, e);
      NewKey(before, e);
      if PlainFirst(before) {
        if !Counts(e.key, e.value) {
          VisitSkipped(AsNode(before), e);
        } else if IsPlain(e) {
          MeetsForm(before, e);
          VisitPlain(AsNode(before), e);
        } else {
          VisitForm(AsNode(before), e, PluralBase(e.key).value);
        }
      }
    }
  }

  lemma NewKey(before: seq<Entry>, e: Entry)
    requires Distinct(before + [e])
    ensures Distinct(before) && e.key !in AsNode(before)
  {
    var all := before + [e];
    assert forall i :: 0 <= i < |before| ==> all[i] == before[i];
    assert all[|before|] == e;
    NodeLookup(before);
  }

  lemma PlainFirstStep(before: seq<Entry>, e: Entry)
    ensures PlainFirst(before + [e]) <==>
              && PlainFirst(before)
              && (IsPlain(e) ==> forall i :: 0 <= i < |before| ==> !IsForm(before[i], e.key))
  {
    var all := before + [e];
    assert forall i :: 0 <= i < |before| ==> all[i] == before[i];
    assert all[|before|] == e;
    if PlainFirst(all) {
      forall i, j | 0 <= i < j < |before| && IsPlain(before[j])
        ensures !IsForm(before[i], before[j].key)
      {
        assert IsPlain(all[j]) && !IsForm(all[i], all[j].key);
      }
      if IsPlain(e) {
        forall i | 0 <= i < |before|
          ensures !IsForm(before[i], e.key)
        {
          assert IsPlain(all[|before|]) && !IsForm(all[i], all[|before|].key);
        }
      }
    }
  }

  // ----- Names that are a message and a plural -----

  ghost predicate NoNameIsBoth(entries: seq<Entry>) {
    forall i, j :: 0 <= i < |entries| && 0 <= j < |entries| && IsPlain(entries[j]) ==>
                     !IsForm(entries[i], entries[j].key)
  }

  /** When no name is both, every order gives the same leaves. */
  lemma AnyOrder(entries: seq<Entry>, reordered: seq<Entry>)
    requires Distinct(entries) && Distinct(reordered) && AsNode(entries) == AsNode(reordered)
    requires NoNameIsBoth(entries)
    ensures Grouping(reordered) == Grouping(entries) == Some(Grouped(AsNode(entries)))
  {
    NodeLookup(entries);
    NodeLookup(reordered);
    forall i, j | 0 <= i < j < |reordered| && IsPlain(reordered[j])
      ensures !IsForm(reordered[i], reordered[j].key)
    {
      var k :| 0 <= k < |entries| && entries[k].key == reordered[i].key;
      var l :| 0 <= l < |entries| && entries[l].key == reordered[j].key;
      assert entries[k] == reordered[i] && entries[l] == reordered[j];
    }
    GroupingIsOrderFree(entries);
    GroupingIsOrderFree(reordered);
  }

  /** When some name is both, there is an order in which the build stops. */
  lemma SomeOrderStops(entries: seq<Entry>) returns (reordered: seq<Entry>)
    requires Distinct(entries) && !NoNameIsBoth(entries)
    ensures Distinct(reordered) && AsNode(reordered) == AsNode(entries)
    ensures Grouping(reordered).None?
  {
    var i, j :| 0 <= i < |entries| && 0 <= j < |entries| && IsPlain(entries[j]) && IsForm(entries[i], entries[j].key);
    if i < j {
      reordered := entries;
    } else {
      reordered := entries[i := entries[j]][j := entries[i]];
      SwapKeepsNode(entries, i, j);
      assert IsPlain(reordered[i]) && IsForm(reordered[j], reordered[i].key);
    }
    GroupingIsOrderFree(reordered);
  }

  lemma NodeWithin(a: seq<Entry>, b: seq<Entry>, index: seq<nat>)
    requires Distinct(a) && Distinct(b) && |index| == |a|
    requires forall i :: 0 <= i < |a| ==> index[i] < |b| && a[i] == b[index[i]]
    ensures forall k :: k in AsNode(a) ==> k in AsNode(b) && AsNode(a)[k] == AsNode(b)[k]
  {
    NodeLookup(a);
    NodeLookup(b);
    forall k | k in AsNode(a)
      ensures k in AsNode(b) && AsNode(a)[k] == AsNode(b)[k]
    {
      var i :| 0 <= i < |a| && a[i].key == k;
      assert b[index[i]].key == k;
    }
  }

  lemma SwapKeepsNode(entries: seq<Entry>, i: nat, j: nat)
    requires Distinct(entries) && j < i < |entries|
    ensures var swapped := entries[i := entries[j]][j := entries[i]];
            Distinct(swapped) && AsNode(swapped) == AsNode(entries)
  {
    var swapped := entries[i := entries[j]][j := entries[i]];
    var index: seq<nat> := seq(|entries|, k requires 0 <= k < |entries| => if k == i then j else if k == j then i else k);
    NodeWithin(swapped, entries, index);
    NodeWithin(entries, swapped, index);
  }

  // ----- Visiting keys in their order -----

  ghost predicate Ascending(entries: seq<Entry>) {
    forall i, j :: 0 <= i < j < |entries| ==> Less(entries[i].key, entries[j].key)
  }

  lemma {:induction false} ExtensionIsNotLess(a: string, suffix: string)
    ensures !Less(a + suffix, a)
  {
    if a != "" {
      assert (a + suffix)[1..] == a[1..] + suffix;
      ExtensionIsNotLess(a[1..], suffix);
    }
  }

  lemma {:induction false} LessIsStrict(a: string)
    ensures !Less(a, a)
  {
    ExtensionIsNotLess(a, "");
    assert a + "" == a;
  }

  /** Visited in ascending order, as a sorted map does, a plain message always comes before its
      plural forms: the build never stops there, and a name that is both becomes one plain
      message with the plural's `_other` text. */
  lemma AscendingNeverStops(entries: seq<Entry>)
    requires Ascending(entries)
    ensures Grouping(entries) == Some(Grouped(AsNode(entries)))
  {
    forall i, j | 0 <= i < j < |entries|
      ensures entries[i].key != entries[j].key
      ensures IsPlain(entries[j]) ==> !IsForm(entries[i], entries[j].key)
    {
      LessIsStrict(entries[j].key);
      if IsForm(entries[i], entries[j].key) {
        var s :| 0 <= s < |SUFFIXES| && entries[i].key == entries[j].key + SUFFIXES[s];
        ExtensionIsNotLess(entries[j].key, SUFFIXES[s]);
      }
    }
    GroupingIsOrderFree(entries);
  }

  /** The generated functions of a group have different names when the leaves are camelCase. */
  lemma FunctionsAreDistinct(node: Node, a: string, b: string)
    requires a in Grouped(node) && b in Grouped(node) && a != b
    requires forall name :: name in Grouped(node) ==> IsCamelCase(name)
    ensures Snake(a).Some? && Snake(b).Some? && Snake(a) != Snake(b)
  {
    SnakeRoundTrip(a);
    SnakeRoundTrip(b);
  }
}
