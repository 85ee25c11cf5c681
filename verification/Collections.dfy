/** Execution collections (`build_execution_collection` in src/mncs_fabric/collections.py). */
module Collections {
  import opened Orders
  import opened Ledger

  datatype Outcome = Outcome(
    item: string, disposition: string, worker: Option<string>, request: Option<string>, record: Option<string>,
        receipt: Option<string>)

  /** An entry repeats one result, or is a remark on an item. */
  datatype Entry = Repeat(result: Outcome) | Remark(about: string, note: string)

  function ItemOf(e: Entry): string { if e.Repeat? then e.result.item else e.about }
  function DispositionOf(e: Entry): string { if e.Repeat? then e.result.disposition else e.note }

  datatype Collection = Collection(entries: seq<Entry>, outcome: string)

  const MISSING := "MISSING"
  const CONFLICT := "CONFLICTING_DUPLICATE"
  const IDEMPOTENT := "DUPLICATE_IDEMPOTENT"

  function IsFor(item: string): Outcome -> bool { (r: Outcome) => r.item == item }

  function ForItem(results: seq<Outcome>, item: string): seq<Outcome> { Keep(IsFor(item), results) }

  function Repeats(results: seq<Outcome>): (r: seq<Entry>)
    ensures |r| == |results| && forall i :: 0 <= i < |r| ==> r[i] == Repeat(results[i])
  { seq(|results|, i requires 0 <= i < |results| => Repeat(results[i])) }

  /** Two results disagree on the record they produced. */
  predicate Disagree(candidates: seq<Outcome>) {
    exists i, j :: 0 <= i < |candidates| && 0 <= j < |candidates| && candidates[i].record != candidates[j].record
  }

  function Remarks(item: string, candidates: seq<Outcome>): seq<Entry> {
    if |candidates| == 0 then [Remark(item, MISSING)]
    else if Disagree(candidates) then [Remark(item, CONFLICT)]
    else if |candidates| > 1 then [Remark(item, IDEMPOTENT)]
    else []
  }

  function EntriesFor(item: string, candidates: seq<Outcome>): seq<Entry>
        { Repeats(candidates) + Remarks(item, candidates) }

  function AllEntries(items: seq<string>, results: seq<Outcome>): seq<Entry> {
    if |items| == 0 then []
    else
      var last := items[|items| - 1];
      AllEntries(items[..|items| - 1], results) + EntriesFor(last, ForItem(results, last))
  }

  predicate Shows(entries: seq<Entry>, disposition: string) {
    exists i :: 0 <= i < |entries| && DispositionOf(entries[i]) == disposition
  }

  function Verdict(entries: seq<Entry>): string {
    if Shows(entries, CONFLICT) || Shows(entries, "FAIL") then "FAIL"
    else if Shows(entries, MISSING) || Shows(entries, "UNKNOWN") then "UNKNOWN"
    else "PASS"
  }

  /** A successful result must name its record. */
  predicate Recorded(isIdentity: string -> bool, r: Outcome) {
    r.disposition in {"PASS", "EXECUTED"} ==> r.record.Some? && isIdentity(r.record.value)
  }

  predicate Acceptable(isIdentity: string -> bool, items: seq<string>, results: seq<Outcome>) {
    && |items| > 0 && (forall i, j :: 0 <= i < j < |items| ==> items[i] != items[j])
    && forall i :: 0 <= i < |results| ==> results[i].item in items && Recorded(isIdentity, results[i])
  }

  function Collected(items: seq<string>, results: seq<Outcome>): Collection {
    Collection(AllEntries(items, results), Verdict(AllEntries(items, results)))
  }

  method Conflicting(candidates: seq<Outcome>) returns (conflict: bool)
    ensures conflict == Disagree(candidates)
  {
    var identities := {};
    for i := 0 to |candidates|
      invariant identities == set k | 0 <= k < i :: candidates[k].record
    {
      identities := identities + {candidates[i].record};
    }
    forall i, j | 0 <= i < |candidates| && 0 <= j < |candidates| && candidates[i].record != candidates[j].record
      ensures |identities| > 1
    {
      var two := {candidates[i].record, candidates[j].record};
      assert two <= identities;
      Subset(two, identities);
    }
    if |identities| > 1 {
      var x :| x in identities;
      Other(identities, x);
      var y :| y in identities && y != x;
      var i :| 0 <= i < |candidates| && candidates[i].record == x;
      var j :| 0 <= j < |candidates| && candidates[j].record == y;
      assert candidates[i].record != candidates[j].record;
    }
    conflict := |identities| > 1;
  }

  lemma {:induction false} Subset<T>(a: set<T>, b: set<T>)
    requires a <= b
    ensures |a| <= |b|
  {
    assert |b| == |a| + |b - a| by { assert b == a + (b - a); }
  }

  lemma Other<T>(s: set<T>, x: T)
    requires |s| > 1 && x in s
    ensures exists y :: y in s && y != x
  {
    assert |s - {x}| > 0;
    var y :| y in s - {x};
  }

  /** Fill `by_item`; stops at a result for an undeclared item. */
  method GroupByItem(items: seq<string>, results: seq<Outcome>) returns (byItem: map<string, seq<Outcome>>, ok: bool)
    ensures ok <==> forall j :: 0 <= j < |results| ==> results[j].item in items
    ensures ok ==> forall i :: i in items ==> i in byItem && byItem[i] == ForItem(results, i)
  {
    byItem := map i | i in items :: [];
    for k := 0 to |results|
      invariant forall i :: i in byItem <==> i in items
      invariant forall i :: i in items ==> byItem[i] == ForItem(results[..k], i)
      invariant forall j :: 0 <= j < k ==> results[j].item in items
    {
      var result := results[k];
      assert results[..k + 1][..k] == results[..k];
      if result.item !in byItem { return byItem, false; }
      byItem := byItem[result.item := byItem[result.item] + [result]];
    }
    assert results[..|results|] == results;
    return byItem, true;
  }

  ghost predicate AllRecorded(isIdentity: string -> bool, results: seq<Outcome>) {
    forall c :: c in results ==> Recorded(isIdentity, c)
  }

  method BuildCollection(isIdentity: string -> bool, items: seq<string>, results: seq<Outcome>)
        returns (r: Result<Collection>)
    ensures r.Ok? <==> Acceptable(isIdentity, items, results)
    ensures r.Ok? ==> r.value == Collected(items, results)
  {
    if |items| == 0 || exists i, j :: 0 <= i < j < |items| && items[i] == items[j] {
      return Err("declared work items must be unique and non-empty");
    }
    var byItem, declared := GroupByItem(items, results);
    if !declared { return Err("collection result references an undeclared work item"); }
    var entries: seq<Entry> := [];
    for n := 0 to |items|
      invariant entries == AllEntries(items[..n], results)
      invariant forall i :: 0 <= i < n ==> AllRecorded(isIdentity, ForItem(results, items[i]))
    {
      assert items[..n + 1][..n] == items[..n];
      var added, ok := AddEntries(isIdentity, items[n], byItem[items[n]]);
      if !ok {
        BadCandidate(isIdentity, results, items[n]);
        return Err("successful collection result requires a record identity");
      }
      entries := entries + added;
    }
    assert items[..|items|] == items;
    NoBadResult(isIdentity, items, results);
    return Ok(Collection(entries, Verdict(entries)));
  }

  lemma NoBadResult(isIdentity: string -> bool, items: seq<string>, results: seq<Outcome>)
    requires forall j :: 0 <= j < |results| ==> results[j].item in items
    requires forall i :: 0 <= i < |items| ==> AllRecorded(isIdentity, ForItem(results, items[i]))
    ensures forall i :: 0 <= i < |results| ==> Recorded(isIdentity, results[i])
  {
    forall i | 0 <= i < |results| ensures Recorded(isIdentity, results[i]) {
      var n :| 0 <= n < |items| && items[n] == results[i].item;
      ForItemHas(results, items[n]);
      assert AllRecorded(isIdentity, ForItem(results, items[n]));
    }
  }

  method AddEntries(isIdentity: string -> bool, item: string, candidates: seq<Outcome>) returns (added: seq<Entry>,
        ok: bool)
    ensures ok <==> AllRecorded(isIdentity, candidates)
    ensures ok ==> added == EntriesFor(item, candidates)
  {
    if |candidates| == 0 { return [Remark(item, MISSING)], true; }
    added := [];
    for i := 0 to |candidates|
      invariant added == Repeats(candidates[..i])
      invariant forall j :: 0 <= j < i ==> Recorded(isIdentity, candidates[j])
    {
      if !Recorded(isIdentity, candidates[i]) { return added, false; }
      added := added + [Repeat(candidates[i])];
    }
    assert candidates[..|candidates|] == candidates;
    var conflict := Conflicting(candidates);
    if conflict {
      added := added + [Remark(item, CONFLICT)];
    } else if |candidates| > 1 {
      added := added + [Remark(item, IDEMPOTENT)];
    }
    return added, true;
  }

  lemma ForItemHas(results: seq<Outcome>, item: string)
    ensures forall r :: r in ForItem(results, item) <==> r in results && r.item == item
  { KeepMembers(IsFor(item), results); }

  lemma BadCandidate(isIdentity: string -> bool, results: seq<Outcome>, item: string)
    requires !AllRecorded(isIdentity, ForItem(results, item))
    ensures exists i :: 0 <= i < |results| && !Recorded(isIdentity, results[i])
  {
    ForItemHas(results, item);
    var c :| c in ForItem(results, item) && !Recorded(isIdentity, c);
    assert c in results;
  }

  // ---- What a collection holds --------------------------------------------------------------

  /** The results an entry list repeats, in entry order. */
  function Repeated(entries: seq<Entry>): seq<Outcome> {
    if |entries| == 0 then []
    else
      var last := entries[|entries| - 1];
      Repeated(entries[..|entries| - 1]) + (if last.Repeat? then [last.result] else [])
  }

  lemma {:induction false} RepeatedAppend(a: seq<Entry>, b: seq<Entry>)
    ensures Repeated(a + b) == Repeated(a) + Repeated(b)
  {
    if |b| == 0 {
      assert a + b == a;
    } else {
      assert (a + b)[..|a + b| - 1] == a + b[..|b| - 1];
      RepeatedAppend(a, b[..|b| - 1]);
    }
  }

  lemma {:induction false} RepeatedRepeats(results: seq<Outcome>)
    ensures Repeated(Repeats(results)) == results
  {
    if |results| > 0 {
      assert Repeats(results)[..|results| - 1] == Repeats(results[..|results| - 1]);
      RepeatedRepeats(results[..|results| - 1]);
    }
  }

  function Grouped(items: seq<string>, results: seq<Outcome>): seq<Outcome> {
    if |items| == 0 then [] else Grouped(items[..|items| - 1], results) + ForItem(results, items[|items| - 1])
  }

  lemma {:induction false} EntriesRepeatGroups(items: seq<string>, results: seq<Outcome>)
    ensures Repeated(AllEntries(items, results)) == Grouped(items, results)
  {
    if |items| > 0 {
      var front, last := items[..|items| - 1], items[|items| - 1];
      var mine := ForItem(results, last);
      EntriesRepeatGroups(front, results);
      RepeatedAppend(AllEntries(front, results), EntriesFor(last, mine));
      RepeatedAppend(Repeats(mine), Remarks(last, mine));
      RepeatedRepeats(mine);
      assert Repeated(Remarks(last, mine)) == [];
    }
  }

  /** Splitting by item loses and invents nothing. */
  lemma {:induction false} GroupedCount(items: seq<string>, results: seq<Outcome>, r: Outcome)
    requires NoDuplicates(items)
    ensures multiset(Grouped(items, results))[r] == if r.item in items then multiset(results)[r] else 0
  {
    if |items| > 0 {
      var front, last := items[..|items| - 1], items[|items| - 1];
      assert items == front + [last];
      GroupedCount(front, results, r);
      KeepCount(IsFor(last), results, r);
    }
  }

  lemma {:induction false} ForItemOfForItem(results: seq<Outcome>, item: string, other: string)
    ensures ForItem(ForItem(results, item), other) == if item == other then ForItem(results, item) else []
  {
    if |results| > 0 {
      var front, last := results[..|results| - 1], results[|results| - 1];
      ForItemOfForItem(front, item, other);
      KeepAppend(IsFor(other), ForItem(front, item), if last.item == item then [last] else []);
      assert [last][..0] == [];
    }
  }

  lemma {:induction false} GroupedForItem(items: seq<string>, results: seq<Outcome>, item: string)
    requires NoDuplicates(items)
    ensures ForItem(Grouped(items, results), item) == if item in items then ForItem(results, item) else []
  {
    if |items| > 0 {
      var front, last := items[..|items| - 1], items[|items| - 1];
      assert items == front + [last];
      GroupedForItem(front, results, item);
      KeepAppend(IsFor(item), Grouped(front, results), ForItem(results, last));
      ForItemOfForItem(results, last, item);
    }
  }

  /** Conservation: the entries repeat every accepted result exactly once, each item's results in
      the order they came. */
  lemma EveryResultOnce(isIdentity: string -> bool, items: seq<string>, results: seq<Outcome>)
    requires Acceptable(isIdentity, items, results)
    ensures var repeated := Repeated(Collected(items, results).entries);
      multiset(repeated) == multiset(results) && forall item :: item in items ==>
        ForItem(repeated, item) == ForItem(results, item)
  {
    EntriesRepeatGroups(items, results);
    var grouped := Grouped(items, results);
    forall r ensures multiset(grouped)[r] == multiset(results)[r] {
      GroupedCount(items, results, r);
      if r !in results { assert r !in multiset(results); }
    }
    forall item | item in items
      ensures ForItem(grouped, item) == ForItem(results, item) { GroupedForItem(items, results, item); }
  }

  lemma {:induction false} EntriesAre(items: seq<string>, results: seq<Outcome>, e: Entry)
    ensures e in AllEntries(items, results) <==>
      exists k :: 0 <= k < |items| && e in EntriesFor(items[k], ForItem(results, items[k]))
  {
    if |items| > 0 {
      var front, last := items[..|items| - 1], items[|items| - 1];
      EntriesAre(front, results, e);
      if e in AllEntries(front, results) {
        var k :| 0 <= k < |front| && e in EntriesFor(front[k], ForItem(results, front[k]));
        assert items[k] == front[k];
      }
      if k :| 0 <= k < |items| && e in EntriesFor(items[k], ForItem(results, items[k])) {
        assert k < |front| ==> front[k] == items[k];
      }
    }
  }

  lemma EveryItemHasAnEntry(items: seq<string>, results: seq<Outcome>, item: string)
    requires item in items
    ensures exists e :: e in Collected(items, results).entries && ItemOf(e) == item
  {
    var k :| 0 <= k < |items| && items[k] == item;
    var mine := ForItem(results, item);
    ForItemHas(results, item);
    var entries := EntriesFor(item, mine);
    var e := entries[0];
    assert mine != [] ==> e == Repeat(mine[0]) && mine[0] in mine;
    assert e in EntriesFor(items[k], ForItem(results, items[k]));
    EntriesAre(items, results, e);
    assert ItemOf(e) == item;
  }

  // ---- The verdict ----------------------------------------------------------------------------

  ghost predicate SomeResult(results: seq<Outcome>, disposition: string) {
    exists r :: r in results && r.disposition == disposition
  }

  ghost predicate Clash(results: seq<Outcome>) {
    exists a, b :: a in results && b in results && a.item == b.item && a.record != b.record
  }

  ghost predicate Uncovered(items: seq<string>, results: seq<Outcome>) {
    exists item :: item in items && forall r :: r in results ==> r.item != item
  }

  lemma RepeatsShow(items: seq<string>, results: seq<Outcome>, r: Outcome)
    requires r in results && r.item in items
    ensures Repeat(r) in AllEntries(items, results)
  {
    var k :| 0 <= k < |items| && items[k] == r.item;
    ForItemHas(results, items[k]);
    var mine := ForItem(results, items[k]);
    var i :| 0 <= i < |mine| && mine[i] == r;
    assert EntriesFor(items[k], mine)[i] == Repeat(r);
    EntriesAre(items, results, Repeat(r));
  }

  lemma RemarksShow(items: seq<string>, results: seq<Outcome>, item: string, note: string)
    requires item in items && Remarks(item, ForItem(results, item)) == [Remark(item, note)]
    ensures Remark(item, note) in AllEntries(items, results)
  {
    var k :| 0 <= k < |items| && items[k] == item;
    var mine := ForItem(results, item);
    assert EntriesFor(item, mine)[|mine|] == Remark(item, note);
    EntriesAre(items, results, Remark(item, note));
  }

  /** Where an entry comes from. */
  lemma {:induction false} EntryOrigin(items: seq<string>, results: seq<Outcome>, e: Entry)
    requires e in AllEntries(items, results)
    ensures e.Repeat? ==> e.result in results
    ensures e.Remark? ==> e.about in items && Remarks(e.about, ForItem(results, e.about)) == [e]
  {
    EntriesAre(items, results, e);
    var k :| 0 <= k < |items| && e in EntriesFor(items[k], ForItem(results, items[k]));
    ForItemHas(results, items[k]);
    OriginOne(items[k], ForItem(results, items[k]), e);
  }

  lemma OriginOne(item: string, mine: seq<Outcome>, e: Entry)
    requires e in EntriesFor(item, mine)
    ensures e.Repeat? ==> e.result in mine
    ensures e.Remark? ==> e.about == item && Remarks(item, mine) == [e]
  {
    if e !in Repeats(mine) { assert e in Remarks(item, mine); }
  }

  lemma ClashIsDisagreement(results: seq<Outcome>, item: string)
    ensures Disagree(ForItem(results, item)) <==>
      exists a, b :: a in results && b in results && a.item == item == b.item && a.record != b.record
  {
    ForItemHas(results, item);
    var mine := ForItem(results, item);
    if a, b :| a in results && b in results && a.item == item == b.item && a.record != b.record {
      var i :| 0 <= i < |mine| && mine[i] == a;
      var j :| 0 <= j < |mine| && mine[j] == b;
      assert mine[i].record != mine[j].record;
    }
    if Disagree(mine) {
      var i, j :| 0 <= i < |mine| && 0 <= j < |mine| && mine[i].record != mine[j].record;
      assert mine[i] in results && mine[j] in results;
    }
  }

  lemma NothingForItem(results: seq<Outcome>, item: string)
    requires forall r :: r in results ==> r.item != item
    ensures ForItem(results, item) == []
  { KeepNone(IsFor(item), results); }

  lemma ShownComesFrom(items: seq<string>, results: seq<Outcome>, disposition: string)
    requires Shows(AllEntries(items, results), disposition) && disposition != IDEMPOTENT
    ensures SomeResult(results, disposition) || (disposition == CONFLICT && Clash(results))
        || (disposition == MISSING && Uncovered(items, results))
  {
    var entries := AllEntries(items, results);
    var i :| 0 <= i < |entries| && DispositionOf(entries[i]) == disposition;
    EntryOrigin(items, results, entries[i]);
    if entries[i].Remark? {
      ForItemHas(results, entries[i].about);
      ClashIsDisagreement(results, entries[i].about);
    }
  }

  lemma ShowsIs(items: seq<string>, results: seq<Outcome>, disposition: string)
    requires disposition != IDEMPOTENT && forall r :: r in results ==> r.item in items
    ensures Shows(AllEntries(items, results), disposition) <==>
      SomeResult(results, disposition) || (disposition == CONFLICT && Clash(results))
          || (disposition == MISSING && Uncovered(items, results))
  {
    if Shows(AllEntries(items, results), disposition) { ShownComesFrom(items, results, disposition); }
    if SomeResult(results, disposition) {
      var r :| r in results && r.disposition == disposition;
      RepeatsShow(items, results, r);
      assert DispositionOf(Repeat(r)) == disposition;
    }
    if disposition == CONFLICT && Clash(results) {
      var a, b :| a in results && b in results && a.item == b.item && a.record != b.record;
      ClashIsDisagreement(results, a.item);
      RemarksShow(items, results, a.item, CONFLICT);
      assert DispositionOf(Remark(a.item, CONFLICT)) == CONFLICT;
    }
    if disposition == MISSING && Uncovered(items, results) {
      var item :| item in items && forall r :: r in results ==> r.item != item;
      NothingForItem(results, item);
      RemarksShow(items, results, item, MISSING);
      assert DispositionOf(Remark(item, MISSING)) == MISSING;
    }
  }

  /** The verdict, exactly. */
  lemma VerdictExactly(isIdentity: string -> bool, items: seq<string>, results: seq<Outcome>)
    requires Acceptable(isIdentity, items, results)
    ensures var v := Collected(items, results).outcome;
      && (v == "FAIL" <==> Clash(results) || SomeResult(results, CONFLICT) || SomeResult(results, "FAIL"))
      && (v == "PASS" <==>
            && !Uncovered(items, results) && !Clash(results)
            && !SomeResult(results, "FAIL") && !SomeResult(results, "UNKNOWN") && !SomeResult(results, MISSING)
                 && !SomeResult(results, CONFLICT))
      && (v == "UNKNOWN" <==>
           v != "FAIL" && (Uncovered(items, results) || SomeResult(results, MISSING) || SomeResult(results, "UNKNOWN")))
  {
    ShowsIs(items, results, CONFLICT);
    ShowsIs(items, results, "FAIL");
    ShowsIs(items, results, MISSING);
    ShowsIs(items, results, "UNKNOWN");
  }

  /** The outcome depends only on which results arrived, not on their order or repetition. */
  lemma VerdictIgnoresOrder(isIdentity: string -> bool, items: seq<string>, a: seq<Outcome>, b: seq<Outcome>)
    requires forall r :: r in a <==> r in b
    ensures Acceptable(isIdentity, items, a) <==> Acceptable(isIdentity, items, b)
    ensures Acceptable(isIdentity, items, a) ==> Collected(items, a).outcome == Collected(items, b).outcome
  {
    forall i | 0 <= i < |a| ensures a[i] in b {}
    forall i | 0 <= i < |b| ensures b[i] in a {}
    if Acceptable(isIdentity, items, b) { AcceptableCarries(isIdentity, items, b, a); }
    if Acceptable(isIdentity, items, a) {
      AcceptableCarries(isIdentity, items, a, b);
      VerdictExactly(isIdentity, items, a);
      VerdictExactly(isIdentity, items, b);
      assert Clash(a) == Clash(b) && Uncovered(items, a) == Uncovered(items, b);
      assert forall d :: SomeResult(a, d) == SomeResult(b, d);
    }
  }

  lemma AcceptableCarries(isIdentity: string -> bool, items: seq<string>, a: seq<Outcome>, b: seq<Outcome>)
    requires Acceptable(isIdentity, items, a) && forall i :: 0 <= i < |b| ==> b[i] in a
    ensures Acceptable(isIdentity, items, b)
  {}
}
