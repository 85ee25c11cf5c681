/** Merging desired-state requirements (src/mncs_fabric/desired_state.py). */
module DesiredState {
  import opened Orders

  datatype Level = Present | SupportedCurrent | MncsSupported | Running | Absent

  datatype Requirement = Requirement(kind: string, name: string, updateClass: string, level: Level,
        version: Option<string>)

  type Key = (string, string)

  function KeyOf(r: Requirement): Key { (r.kind, r.name) }

  function Rank(l: Level): nat {
    match l case Present => 1 case SupportedCurrent => 2 case MncsSupported => 3 case Running => 4 case Absent => 5
  }

  /** Python's order on pairs of text. */
  predicate KeyLe(a: Key, b: Key) { if a.0 == b.0 then TextLe(a.1, b.1) else TextLe(a.0, b.0) }

  lemma KeyOrder()
    ensures Total(KeyLe)
    ensures forall a, b :: KeyLe(a, b) && KeyLe(b, a) ==> a == b
  {
    TextLeOrder();
    forall a, b, c | KeyLe(a, b) && KeyLe(b, c) ensures KeyLe(a, c) {}
    forall a, b | KeyLe(a, b) && KeyLe(b, a) ensures a == b {}
  }

  // ---- The fold -----------------------------------------------------------------------------

  /** A Python dictionary of requirements: its keys in insertion order, and its values. */
  datatype Dict = Dict(keys: seq<Key>, values: map<Key, Requirement>)

  const EMPTY := Dict([], map[])

  function Offer(d: Dict, r: Requirement): Dict {
    var k := KeyOf(r);
    if k !in d.values then Dict(d.keys + [k], d.values[k := r])
    else if Rank(r.level) >= Rank(d.values[k].level) then d.(values := d.values[k := r])
    else d
  }

  function Fold(d: Dict, items: seq<Requirement>): Dict {
    if |items| == 0 then d else Offer(Fold(d, items[..|items| - 1]), items[|items| - 1])
  }

  function Values(d: Dict, keys: seq<Key>): (r: seq<Requirement>)
    requires forall k :: k in keys ==> k in d.values
    ensures |r| == |keys| && forall i :: 0 <= i < |keys| ==> r[i] == d.values[keys[i]]
  { seq(|keys|, i requires 0 <= i < |keys| => d.values[keys[i]]) }

  function Flatten(groups: seq<seq<Requirement>>): seq<Requirement> {
    if |groups| == 0 then [] else Flatten(groups[..|groups| - 1]) + groups[|groups| - 1]
  }

  ghost predicate WellKeyed(d: Dict) {
    && NoDuplicates(d.keys) && (forall k :: k in d.keys <==> k in d.values)
    && forall k :: k in d.values ==> KeyOf(d.values[k]) == k
  }

  lemma {:induction false} FoldKeyed(d: Dict, items: seq<Requirement>)
    requires WellKeyed(d)
    ensures WellKeyed(Fold(d, items))
  {
    if |items| > 0 { FoldKeyed(d, items[..|items| - 1]); }
  }

  lemma {:induction false} FoldAppend(d: Dict, a: seq<Requirement>, b: seq<Requirement>)
    ensures Fold(d, a + b) == Fold(Fold(d, a), b)
  {
    if |b| == 0 {
      assert a + b == a;
    } else {
      assert (a + b)[..|a + b| - 1] == a + b[..|b| - 1];
      FoldAppend(d, a, b[..|b| - 1]);
    }
  }

  lemma SortedKeys(d: Dict)
    requires WellKeyed(d)
    ensures var s := Sort(KeyLe, d.keys);
      NoDuplicates(s) && Sorted(KeyLe, s) && forall k :: k in s <==> k in d.values
  {
    var s := Sort(KeyLe, d.keys);
    KeyOrder();
    SortSorts(KeyLe, d.keys);
    PermutationNoDuplicates(d.keys, s);
    forall k ensures k in s <==> k in d.values {
      assert k in s <==> k in multiset(s);
      assert k in d.keys <==> k in multiset(d.keys);
    }
  }

  function KeysOf(items: seq<Requirement>): (r: seq<Key>)
    ensures |r| == |items| && forall i :: 0 <= i < |r| ==> r[i] == KeyOf(items[i])
  { seq(|items|, i requires 0 <= i < |items| => KeyOf(items[i])) }

  lemma ListedIs(d: Dict)
    requires WellKeyed(d)
    ensures var s := Sort(KeyLe, d.keys);
      (forall k :: k in s ==> k in d.values) && Listed(d) == Values(d, s) && KeysOf(Listed(d)) == s
  {
    SortedKeys(d);
    var s := Sort(KeyLe, d.keys);
    forall i | 0 <= i < |s| ensures s[i] in d.values { assert s[i] in s; }
  }

  function Listed(d: Dict): seq<Requirement> {
    var s := Sort(KeyLe, d.keys);
    if forall i :: 0 <= i < |s| ==> s[i] in d.values then Values(d, s) else []
  }

  /** `_merge_requirements` as a function of the concatenated groups. */
  function Merged(items: seq<Requirement>): seq<Requirement> { Listed(Fold(EMPTY, items)) }

  /** The inner loop: offer one group to the dictionary. */
  method OfferAll(before: Dict, group: seq<Requirement>) returns (after: Dict)
    ensures after == Fold(before, group)
  {
    after := before;
    for i := 0 to |group|
      invariant after == Fold(before, group[..i])
    {
      assert group[..i + 1][..i] == group[..i];
      var k := KeyOf(group[i]);
      if k !in after.values {
        after := Dict(after.keys + [k], after.values[k := group[i]]);
      } else if Rank(group[i].level) >= Rank(after.values[k].level) {
        after := after.(values := after.values[k := group[i]]);
      }
    }
    assert group[..|group|] == group;
  }

  method MergeRequirements(groups: seq<seq<Requirement>>) returns (r: seq<Requirement>)
    ensures r == Merged(Flatten(groups))
  {
    var merged := EMPTY;
    for g := 0 to |groups|
      invariant merged == Fold(EMPTY, Flatten(groups[..g]))
    {
      assert groups[..g + 1][..g] == groups[..g];
      merged := OfferAll(merged, groups[g]);
      FoldAppend(EMPTY, Flatten(groups[..g]), groups[g]);
    }
    assert groups[..|groups|] == groups;
    FoldKeyed(EMPTY, Flatten(groups));
    r := ListSorted(merged);
  }

  method ListSorted(merged: Dict) returns (r: seq<Requirement>)
    requires WellKeyed(merged)
    ensures r == Listed(merged)
  {
    ListedIs(merged);
    var sorted := Sort(KeyLe, merged.keys);
    r := [];
    for i := 0 to |sorted|
      invariant |r| == i && forall j :: 0 <= j < i ==> r[j] == merged.values[sorted[j]]
    {
      assert sorted[i] in sorted;
      r := r + [merged.values[sorted[i]]];
    }
  }

  // ---- Rank-maximal, last wins ----------------------------------------------------------------

  /** Entry `i` is the last of the greatest rank among the entries of its key. */
  ghost predicate Wins(items: seq<Requirement>, i: nat)
    requires i < |items|
  {
    forall j :: 0 <= j < |items| && KeyOf(items[j]) == KeyOf(items[i]) ==>
      Rank(items[j].level) <= Rank(items[i].level) && (j > i ==> Rank(items[j].level) < Rank(items[i].level))
  }

  lemma {:induction false} FoldKeepsWinner(items: seq<Requirement>, k: Key)
    ensures k in Fold(EMPTY, items).values <==> exists i :: 0 <= i < |items| && KeyOf(items[i]) == k
    ensures k in Fold(EMPTY, items).values ==>
      exists i :: 0 <= i < |items| && KeyOf(items[i]) == k && Wins(items, i) && Fold(EMPTY, items).values[k] == items[i]
  {
    if |items| > 0 {
      var n := |items| - 1;
      var front := items[..n];
      FoldKeepsWinner(front, k);
      if KeyOf(items[n]) == k { assert KeyOf(items[n]) == k; }
      if k in Fold(EMPTY, front).values {
        var i :| 0 <= i < n && KeyOf(front[i]) == k && Wins(front, i) && Fold(EMPTY, front).values[k] == front[i];
        assert items[i] == front[i];
        WinnerStep(items, i);
      } else if KeyOf(items[n]) == k {
        forall j | 0 <= j < n ensures KeyOf(items[j]) != k { assert front[j] == items[j]; }
        assert Wins(items, n);
      }
    }
  }

  lemma WinnerStep(items: seq<Requirement>, i: nat)
    requires |items| > 0 && i < |items| - 1 && Wins(items[..|items| - 1], i)
    ensures var n := |items| - 1;
      var replaced := KeyOf(items[n]) == KeyOf(items[i]) && Rank(items[n].level) >= Rank(items[i].level);
      Wins(items, if replaced then n else i)
  {
    var n := |items| - 1;
    var front := items[..n];
    forall j | 0 <= j < n && KeyOf(items[j]) == KeyOf(items[i])
      ensures Rank(items[j].level) <= Rank(items[i].level) && (j > i ==> Rank(items[j].level) < Rank(items[i].level))
    {
      assert front[j] == items[j];
    }
  }

  lemma WinnerUnique(items: seq<Requirement>, i: nat, j: nat)
    requires i < |items| && j < |items| && KeyOf(items[i]) == KeyOf(items[j]) && Wins(items, i) && Wins(items, j)
    ensures i == j
  {}

  ghost predicate HasKey(m: seq<Requirement>, k: Key) { exists n :: 0 <= n < |m| && KeyOf(m[n]) == k }

  ghost predicate IsWinner(items: seq<Requirement>, r: Requirement)
        { exists i :: 0 <= i < |items| && items[i] == r && Wins(items, i) }

  lemma {:induction false} MergedCovers(items: seq<Requirement>, i: nat)
    requires i < |items|
    ensures HasKey(Merged(items), KeyOf(items[i]))
  {
    var d := Fold(EMPTY, items);
    FoldKeyed(EMPTY, items);
    ListedIs(d);
    SortedKeys(d);
    FoldKeepsWinner(items, KeyOf(items[i]));
    var s := Sort(KeyLe, d.keys);
    var n :| 0 <= n < |s| && s[n] == KeyOf(items[i]);
    assert KeysOf(Merged(items))[n] == s[n];
  }

  lemma {:induction false} MergedWins(items: seq<Requirement>, n: nat)
    requires n < |Merged(items)|
    ensures IsWinner(items, Merged(items)[n])
  {
    var d := Fold(EMPTY, items);
    FoldKeyed(EMPTY, items);
    ListedIs(d);
    var s := Sort(KeyLe, d.keys);
    assert s[n] in s;
    FoldKeepsWinner(items, s[n]);
  }

  /** The merged list: keys strictly sorted, exactly the keys offered, and each carries the one
      entry that is last of the greatest rank among all inputs. */
  lemma {:induction false} MergedIsLastOfGreatestRank(items: seq<Requirement>)
    ensures var m := Merged(items);
      && NoDuplicates(KeysOf(m)) && Sorted(KeyLe, KeysOf(m))
      && (forall i :: 0 <= i < |items| ==> HasKey(m, KeyOf(items[i])))
      && (forall n :: 0 <= n < |m| ==> IsWinner(items, m[n]))
      && (forall n, i :: 0 <= n < |m| && 0 <= i < |items| && KeyOf(items[i]) == KeyOf(m[n]) && Wins(items, i) ==>
           m[n] == items[i])
  {
    FoldKeyed(EMPTY, items);
    ListedIs(Fold(EMPTY, items));
    SortedKeys(Fold(EMPTY, items));
    var m := Merged(items);
    forall i | 0 <= i < |items| ensures HasKey(m, KeyOf(items[i])) { MergedCovers(items, i); }
    forall n | 0 <= n < |m| ensures IsWinner(items, m[n]) { MergedWins(items, n); }
    forall n, i | 0 <= n < |m| && 0 <= i < |items| && KeyOf(items[i]) == KeyOf(m[n]) && Wins(items, i)
      ensures m[n] == items[i] {
      MergedIsTheWinner(items, n, i);
    }
  }

  lemma {:induction false} MergedIsTheWinner(items: seq<Requirement>, n: nat, i: nat)
    requires n < |Merged(items)| && i < |items| && KeyOf(items[i]) == KeyOf(Merged(items)[n]) && Wins(items, i)
    ensures Merged(items)[n] == items[i]
  {
    MergedWins(items, n);
    var k :| 0 <= k < |items| && items[k] == Merged(items)[n] && Wins(items, k);
    WinnerUnique(items, i, k);
  }

  // ---- Merging in stages ------------------------------------------------------------------------

  ghost predicate Holds(d: Dict, items: seq<Requirement>) {
    forall i :: 0 <= i < |items| ==> KeyOf(items[i]) in d.values && d.values[KeyOf(items[i])] == items[i]
  }

  lemma OfferNew(d: Dict, items: seq<Requirement>, r: Requirement)
    requires WellKeyed(d) && d.keys == KeysOf(items) && Holds(d, items) && KeyOf(r) !in d.keys
    ensures Offer(d, r).keys == KeysOf(items + [r]) && Holds(Offer(d, r), items + [r])
  {
    assert KeysOf(items + [r]) == KeysOf(items) + [KeyOf(r)];
  }

  lemma KeysAppend(items: seq<Requirement>, r: Requirement)
    requires NoDuplicates(KeysOf(items + [r]))
    ensures NoDuplicates(KeysOf(items)) && KeyOf(r) !in KeysOf(items)
  {
    var keys := KeysOf(items + [r]);
    forall i | 0 <= i < |items| ensures KeysOf(items)[i] == keys[i] {}
    assert keys[|items|] == KeyOf(r);
  }

  /** Folding a list with distinct keys simply stores it. */
  lemma {:induction false} FoldDistinct(items: seq<Requirement>)
    requires NoDuplicates(KeysOf(items))
    ensures Fold(EMPTY, items).keys == KeysOf(items) && Holds(Fold(EMPTY, items), items)
  {
    if |items| > 0 {
      var front, last := items[..|items| - 1], items[|items| - 1];
      assert items == front + [last];
      KeysAppend(front, last);
      FoldDistinct(front);
      FoldKeyed(EMPTY, front);
      OfferNew(Fold(EMPTY, front), front, last);
    }
  }

  /** Folding the merged list gives back the dictionary it was listed from, up to insertion order. */
  lemma FoldOfMerged(items: seq<Requirement>)
    ensures Fold(EMPTY, Merged(items)).values == Fold(EMPTY, items).values
  {
    var d, m := Fold(EMPTY, items), Merged(items);
    FoldKeyed(EMPTY, items);
    SortedKeys(d);
    ListedIs(d);
    FoldDistinct(m);
    FoldKeyed(EMPTY, m);
    SameValues(d, Fold(EMPTY, m), Sort(KeyLe, d.keys), m);
  }

  lemma SameValues(d: Dict, again: Dict, s: seq<Key>, m: seq<Requirement>)
    requires WellKeyed(again) && again.keys == s && (forall k :: k in s <==> k in d.values)
    requires KeysOf(m) == s && m == Values(d, s) && Holds(again, m)
    ensures again.values == d.values
  {
    forall k | k in d.values ensures k in again.values && again.values[k] == d.values[k] {
      var n :| 0 <= n < |s| && s[n] == k;
      assert KeyOf(m[n]) == k;
    }
    forall k | k in again.values ensures k in d.values { assert k in again.keys; }
  }

  lemma {:induction false} FoldIgnoresInsertionOrder(a: Dict, b: Dict, items: seq<Requirement>)
    requires WellKeyed(a) && WellKeyed(b) && a.values == b.values
    ensures Fold(a, items).values == Fold(b, items).values
  {
    if |items| > 0 { FoldIgnoresInsertionOrder(a, b, items[..|items| - 1]); }
  }

  lemma ListedIgnoresInsertionOrder(a: Dict, b: Dict)
    requires WellKeyed(a) && WellKeyed(b) && a.values == b.values
    ensures Listed(a) == Listed(b)
  {
    SortedKeys(a);
    SortedKeys(b);
    var x, y := Sort(KeyLe, a.keys), Sort(KeyLe, b.keys);
    KeyOrder();
    SameMembers(x, y);
    SortedUnique(KeyLe, x, y);
  }

  /** Merging the profiles and overrides first and the models after is one merge of everything;
      in particular merging a merged list changes nothing. */
  lemma TwoStagesAreOne(first: seq<Requirement>, second: seq<Requirement>)
    ensures Merged(Merged(first) + second) == Merged(first + second)
    ensures Merged(Merged(first)) == Merged(first)
  {
    var d, again := Fold(EMPTY, first), Fold(EMPTY, Merged(first));
    FoldOfMerged(first);
    FoldKeyed(EMPTY, first);
    FoldKeyed(EMPTY, Merged(first));
    FoldAppend(EMPTY, Merged(first), second);
    FoldAppend(EMPTY, first, second);
    FoldIgnoresInsertionOrder(d, again, second);
    FoldKeyed(d, second);
    FoldKeyed(again, second);
    ListedIgnoresInsertionOrder(Fold(again, second), Fold(d, second));
    ListedIgnoresInsertionOrder(again, d);
  }

  lemma FlattenAppend(groups: seq<seq<Requirement>>, group: seq<Requirement>)
    ensures Flatten(groups + [group]) == Flatten(groups) + group
  {
    assert (groups + [group])[..|groups|] == groups;
  }

  /** `resolve_desired_state`, its requirement list. */
  method Resolve(profiles: seq<seq<Requirement>>, overrides: seq<Requirement>, models: seq<Requirement>)
        returns (r: seq<Requirement>)
    ensures r == Merged(Flatten(profiles) + overrides + models)
  {
    var first := MergeRequirements(profiles + [overrides]);
    r := MergeRequirements([first] + [models]);
    FlattenAppend(profiles, overrides);
    FlattenAppend([first], models);
    FlattenAppend([], first);
    assert [] + [first] == [first] && Flatten([]) + first == first;
    TwoStagesAreOne(Flatten(profiles) + overrides, models);
  }
}
