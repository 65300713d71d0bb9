/** What a partly applied plan has done to an account: the books the executor's undo list keeps,
    whether or not it knows. */
module Ledger {
  import opened CloudAccount
  import opened Histories
  import opened Ingress
  import opened Wrappers

  /** How to reverse a completed step. */
  datatype Undo =
    | DropTunnel(id: nat)
    | RestoreConfig(tunnel: nat, previousRules: seq<Rule>)
    | DropRecord(record: nat)
    | RestoreRecord(was: nat, previous: Record, current: nat)
    | RecreateRecord(deleted: nat, previous: Record)

  /** A completed step, by its index in the plan, with its undo. */
  datatype Entry = Entry(step: nat, undo: Undo)

  /** The record the step left in place. */
  function Held(e: Entry): Option<nat> {
    match e.undo
    case DropRecord(id) => Some(id)
    case RestoreRecord(_, _, current) => Some(current)
    case _ => None
  }

  function HeldData(e: Entry, records: map<nat, Record>): multiset<Record> {
    if Held(e).Some? && Held(e).value in records then multiset{records[Held(e).value]} else multiset{}
  }

  /** The record the step took away. */
  function TakenData(e: Entry): multiset<Record> {
    if e.undo.RestoreRecord? || e.undo.RecreateRecord? then multiset{e.undo.previous} else multiset{}
  }

  function AllHeld(es: seq<Entry>, records: map<nat, Record>): multiset<Record> {
    if es == [] then multiset{} else AllHeld(Init(es), records) + HeldData(Last(es), records)
  }

  function AllTaken(es: seq<Entry>): multiset<Record> {
    if es == [] then multiset{} else AllTaken(Init(es)) + TakenData(Last(es))
  }

  ghost predicate InPlace(es: seq<Entry>, records: map<nat, Record>) {
    forall i :: 0 <= i < |es| && Held(es[i]).Some? ==> Held(es[i]).value in records
  }

  ghost predicate Apart(es: seq<Entry>) {
    forall i, j :: 0 <= i < j < |es| && Held(es[i]).Some? ==> Held(es[i]) != Held(es[j])
  }

  /** The account's records are the initial ones, less what the entries took, plus what they
      hold: nothing else changed. */
  ghost predicate Books(start: Cloud, es: seq<Entry>, c: Cloud) {
    && Valid(c)
    && InPlace(es, c.records)
    && Apart(es)
    && Data(c) + AllTaken(es) == Data(start) + AllHeld(es, c.records)
  }

  /** Everything the entries hold is the same in both. */
  ghost predicate KeepsHeld(es: seq<Entry>, a: map<nat, Record>, b: map<nat, Record>) {
    forall i :: 0 <= i < |es| && Held(es[i]).Some? ==>
      Held(es[i]).value in a && Held(es[i]).value in b && a[Held(es[i]).value] == b[Held(es[i]).value]
  }

  lemma {:induction false} KeptHeld(es: seq<Entry>, a: map<nat, Record>, b: map<nat, Record>)
    requires KeepsHeld(es, a, b)
    ensures AllHeld(es, a) == AllHeld(es, b)
  {
    if es != [] {
      assert KeepsHeld(Init(es), a, b);
      KeptHeld(Init(es), a, b);
    }
  }

  lemma {:induction false} AllConcat(a: seq<Entry>, b: seq<Entry>, records: map<nat, Record>)
    ensures AllHeld(a + b, records) == AllHeld(a, records) + AllHeld(b, records)
    ensures AllTaken(a + b) == AllTaken(a) + AllTaken(b)
  {
    if b == [] {
      assert a + b == a;
    } else {
      assert Init(a + b) == a + Init(b) && Last(a + b) == Last(b);
      AllConcat(a, Init(b), records);
    }
  }

  lemma AllOne(e: Entry, records: map<nat, Record>)
    ensures AllHeld([e], records) == HeldData(e, records) && AllTaken([e]) == TakenData(e)
  {
    assert Init([e]) == [];
  }

  /** A completed step is entered. */
  lemma Enter(start: Cloud, es: seq<Entry>, c: Cloud, e: Entry, after: Cloud)
    requires Books(start, es, c) && Valid(after)
    requires KeepsHeld(es, c.records, after.records)
    requires Held(e).Some? ==>
               && Held(e).value in after.records
               && forall i :: 0 <= i < |es| ==> Held(es[i]) != Held(e)
    requires Data(after) + TakenData(e) == Data(c) + HeldData(e, after.records)
    ensures Books(start, es + [e], after)
  {
    KeptHeld(es, c.records, after.records);
    AllConcat(es, [e], after.records);
    AllOne(e, after.records);
    EnterSums(Data(start), Data(c), Data(after), TakenData(e), HeldData(e, after.records), AllTaken(es), AllHeld(es, c.records));
    OneMoreApart(es, e, after.records);
  }

  lemma EnterSums<T>(start: multiset<T>, c: multiset<T>, after: multiset<T>, taken: multiset<T>, held: multiset<T>,
                     allTaken: multiset<T>, allHeld: multiset<T>)
    requires c + allTaken == start + allHeld
    requires after + taken == c + held
    ensures after + (allTaken + taken) == start + (allHeld + held)
  {
    forall x
      ensures after[x] + allTaken[x] + taken[x] == start[x] + allHeld[x] + held[x]
    {
      assert (c + allTaken)[x] == (start + allHeld)[x];
      assert (after + taken)[x] == (c + held)[x];
    }
  }

  lemma OneMoreApart(es: seq<Entry>, e: Entry, records: map<nat, Record>)
    requires Apart(es) && InPlace(es, records)
    requires Held(e).Some? ==> Held(e).value in records && forall i :: 0 <= i < |es| ==> Held(es[i]) != Held(e)
    ensures Apart(es + [e]) && InPlace(es + [e], records)
  {
  }

  /** An undone step is struck out, wherever it stands among the others. */
  lemma Strike(start: Cloud, a: seq<Entry>, e: Entry, b: seq<Entry>, c: Cloud, after: Cloud)
    requires Books(start, a + [e] + b, c) && Valid(after)
    requires KeepsHeld(a + b, c.records, after.records)
    requires Data(after) + HeldData(e, c.records) == Data(c) + TakenData(e)
    ensures Books(start, a + b, after)
  {
    AllConcat(a + [e], b, c.records);
    AllConcat(a, [e], c.records);
    AllConcat(a, b, c.records);
    AllOne(e, c.records);
    KeptHeld(a + b, c.records, after.records);
    StrikeSums(Data(start), Data(c), Data(after), TakenData(e), HeldData(e, c.records), AllTaken(a), AllTaken(b),
               AllHeld(a, c.records), AllHeld(b, c.records));
    RestApart(a, e, b);
  }

  lemma StrikeSums<T>(start: multiset<T>, c: multiset<T>, after: multiset<T>, taken: multiset<T>, held: multiset<T>,
                      takenA: multiset<T>, takenB: multiset<T>, heldA: multiset<T>, heldB: multiset<T>)
    requires c + (takenA + taken + takenB) == start + (heldA + held + heldB)
    requires after + held == c + taken
    ensures after + (takenA + takenB) == start + (heldA + heldB)
  {
    forall x
      ensures after[x] + takenA[x] + takenB[x] == start[x] + heldA[x] + heldB[x]
    {
      assert (c + (takenA + taken + takenB))[x] == (start + (heldA + held + heldB))[x];
      assert (after + held)[x] == (c + taken)[x];
    }
  }

  lemma RestApart(a: seq<Entry>, e: Entry, b: seq<Entry>)
    requires Apart(a + [e] + b)
    ensures Apart(a + b)
    ensures Held(e).Some? ==> forall i :: 0 <= i < |a + b| ==> Held((a + b)[i]) != Held(e)
  {
    var all, rest := a + [e] + b, a + b;
    assert all[|a|] == e;
    assert forall i :: 0 <= i < |a| ==> all[i] == rest[i];
    assert forall i :: |a| <= i < |rest| ==> all[i + 1] == rest[i];
  }
}
