/** The published side of the bundle cache and its garbage collection (`status` and `gc` of
    `BundleCache` in src/mncs_fabric/bundle_transfer.py). Directory names are identities in a
    fixed order; sizes are what the files under a target occupy. */
module Gc {
  import opened Orders
  import opened Ledger

  type Data = seq<int>
  datatype File = File(path: string, data: Data)

  /** A published directory; `bundle` is the identity its metadata names, if it has metadata. */
  datatype Target = Target(
    bundle: Option<Digest>, archiveId: Digest, archive: Data, content: seq<File>, metadataBytes: nat, modified: int)

  function ContentBytes(content: seq<File>): nat {
    if |content| == 0 then 0 else ContentBytes(content[..|content| - 1]) + |content[|content| - 1].data|
  }

  /** `_entry_bytes`. */
  function Size(t: Target): nat { |t.archive| + ContentBytes(t.content) + t.metadataBytes }

  type Published = map<Digest, Target>

  lemma {:induction false} LeastExists(s: set<Digest>)
    requires s != {}
    ensures exists k :: k in s && forall x :: x in s ==> k <= x
  {
    if forall k :: k !in s { assert false; }
    var k :| k in s;
    if s != {k} {
      LeastExists(s - {k});
      var m :| m in s - {k} && forall x :: x in s - {k} ==> m <= x;
      var least := if k <= m then k else m;
      assert least in s && forall x :: x in s ==> least <= x by {
        forall x | x in s ensures least <= x { if x != k { assert x in s - {k}; } }
      }
    }
  }

  /** The first name in directory order. */
  function First(s: set<Digest>): (k: Digest)
    requires s != {}
    ensures k in s && forall x :: x in s ==> k <= x
  {
    LeastExists(s);
    var k :| k in s && forall x :: x in s ==> k <= x;
    k
  }

  /** `_cache_bytes`, apart from the remains of interrupted publications. */
  function CacheBytes(p: Published): nat {
    if p == map[] then 0 else var k := First(p.Keys); Size(p[k]) + CacheBytes(p - {k})
  }

  lemma {:induction false} BytesWithout(p: Published, k: Digest)
    requires k in p
    ensures CacheBytes(p) == Size(p[k]) + CacheBytes(p - {k})
  {
    var f := First(p.Keys);
    if f != k {
      var rest := p - {f};
      BytesWithout(rest, k);
      var without := p - {k};
      assert rest - {k} == without - {f};
      assert First(without.Keys) == f by { assert f in without.Keys; assert First(without.Keys) in p.Keys; }
    }
  }

  lemma BytesWith(p: Published, k: Digest, t: Target)
    requires k !in p
    ensures CacheBytes(p[k := t]) == CacheBytes(p) + Size(t)
  {
    BytesWithout(p[k := t], k);
    assert p[k := t] - {k} == p;
  }

  // ---- Status ---------------------------------------------------------------------------------

  datatype Item = Item(name: Digest, identity: Digest, bytes: nat, pinned: bool, inUse: bool, modified: int)

  function ItemFor(name: Digest, t: Target, pinned: set<Digest>, inUse: set<Digest>): Item {
    var identity := if t.bundle.Some? then t.bundle.value else name;
    Item(name, identity, Size(t), identity in pinned || name in pinned, identity in inUse || name in inUse, t.modified)
  }

  /** The entries of `status`, in directory order. */
  function Items(p: Published, pinned: set<Digest>, inUse: set<Digest>): seq<Item> {
    if p == map[] then [] else var k := First(p.Keys); [ItemFor(k, p[k], pinned, inUse)] + Items(p - {k}, pinned, inUse)
  }

  predicate Evictable(i: Item) { !i.pinned && !i.inUse }

  predicate OlderLe(a: Item, b: Item) { a.modified <= b.modified }

  function Candidates(p: Published, pinned: set<Digest>, inUse: set<Digest>): seq<Item> {
    Sort(OlderLe, Keep(Evictable, Items(p, pinned, inUse)))
  }

  // ---- The eviction loop ------------------------------------------------------------------------

  function Max(a: int, b: int): int { if a < b then b else a }

  /** How much must be freed: the request, or a fifth of the cache once it is four fifths full. */
  function Goal(before: nat, max: nat, needed: int): int {
    if before >= 4 * max / 5 then Max(Max(needed, 0), max / 5) else Max(needed, 0)
  }

  predicate Enough(p: Published, other: nat, max: nat, needed: int, goal: int, freed: int) {
    (needed > 0 ==> CacheBytes(p) + other + needed <= max) && freed >= goal
  }

  datatype Sweep = Sweep(left: Published, evicted: seq<Digest>, freed: nat)

  function EvictOne(s: Sweep, item: Item): Sweep {
    if item.identity in s.left then Sweep(s.left - {item.identity}, s.evicted + [item.identity], s.freed + item.bytes)
        else s
  }

  function SweepFrom(s: Sweep, candidates: seq<Item>, other: nat, max: nat, needed: int, goal: int): Sweep
    decreases |candidates|
  {
    if |candidates| == 0 || Enough(s.left, other, max, needed, goal, s.freed) then s
    else SweepFrom(EvictOne(s, candidates[0]), candidates[1..], other, max, needed, goal)
  }

  datatype Outcome = DryRun | Failed | Collected
  datatype Collection = Collection(sweep: Sweep, outcome: Outcome)

  /** `gc`; `other` is what interrupted publications left behind, counted but never evicted. */
  function CollectFrom(p: Published, other: nat, max: nat, needed: int, pinned: set<Digest>,
        inUse: set<Digest>): Collection {
    var s := SweepFrom(Sweep(p, [], 0), Candidates(p, pinned, inUse), other, max, needed,
        Goal(CacheBytes(p), max, needed));
    Collection(s, if needed != 0 && CacheBytes(s.left) + other + needed > max then Failed else Collected)
  }

  // ---- What the loop achieves -----------------------------------------------------------------------

  /** Every published directory carries its own identity. */
  ghost predicate Tidy(p: Published) { forall k :: k in p ==> p[k].bundle.None? || p[k].bundle.value == k }

  ghost predicate Describes(items: seq<Item>, p: Published) {
    && (forall i :: 0 <= i < |items| ==>
         items[i].identity == items[i].name && items[i].name in p && items[i].bytes == Size(p[items[i].name]))
    && forall i, j :: 0 <= i < j < |items| ==> items[i].name != items[j].name
  }

  lemma {:induction false} ItemsDescribe(p: Published, pinned: set<Digest>, inUse: set<Digest>)
    requires Tidy(p)
    ensures Describes(Items(p, pinned, inUse), p)
    ensures forall i :: i in Items(p, pinned, inUse) <==> i.name in p && i == ItemFor(i.name, p[i.name], pinned, inUse)
  {
    if p != map[] {
      var k := First(p.Keys);
      ItemsDescribe(p - {k}, pinned, inUse);
    }
  }

  lemma CandidatesAre(p: Published, pinned: set<Digest>, inUse: set<Digest>)
    requires Tidy(p)
    ensures var c := Candidates(p, pinned, inUse);
      && Describes(c, p) && Sorted(OlderLe, c)
      && forall i :: i in c <==>
           i.name in p && i.name !in pinned && i.name !in inUse && i == ItemFor(i.name, p[i.name], pinned, inUse)
  {
    var items := Items(p, pinned, inUse);
    var open, c := Keep(Evictable, items), Candidates(p, pinned, inUse);
    ItemsDescribe(p, pinned, inUse);
    KeepMembers(Evictable, items);
    KeepNoDuplicates(Evictable, items);
    SortSorts(OlderLe, open);
    SameElements(c, open);
    PermutationNoDuplicates(open, c);
    forall i | 0 <= i < |c| ensures c[i] in items { assert c[i] in c; }
    forall i, j | 0 <= i < j < |c| ensures c[i].name != c[j].name {
      assert c[i] in items && c[j] in items;
    }
  }

  function Sum(items: seq<Item>): nat { if |items| == 0 then 0 else items[0].bytes + Sum(items[1..]) }

  function Names(items: seq<Item>): (r: seq<Digest>)
    ensures |r| == |items| && forall i :: 0 <= i < |r| ==> r[i] == items[i].name
  { seq(|items|, i requires 0 <= i < |items| => items[i].name) }

  /** The first `n` candidates suffice. */
  predicate Suffices(before: nat, candidates: seq<Item>, n: nat, other: nat, max: nat, needed: int, goal: int)
    requires n <= |candidates|
  {
    (needed > 0 ==> before - Sum(candidates[..n]) + other + needed <= max) && Sum(candidates[..n]) >= goal
  }

  /** `n` is the shortest prefix that suffices, or everything if none does. */
  ghost predicate Shortest(before: nat, candidates: seq<Item>, n: nat, other: nat, max: nat, needed: int, goal: int) {
    && n <= |candidates|
    && (n < |candidates| ==> Suffices(before, candidates, n, other, max, needed, goal))
    && forall m :: 0 <= m < n ==> !Suffices(before, candidates, m, other, max, needed, goal)
  }

  lemma {:induction false} SumAppend(items: seq<Item>, n: nat)
    requires n < |items|
    ensures Sum(items[..n + 1]) == Sum(items[..n]) + items[n].bytes
  {
    if n > 0 {
      SumAppend(items[1..], n - 1);
      assert items[1..][..n] == items[..n + 1][1..] && items[1..][..n - 1] == items[..n][1..];
    } else {
      assert items[..1][1..] == [];
    }
  }

  function NameSet(items: seq<Item>, n: nat): set<Digest>
    requires n <= |items|
  { set i | 0 <= i < n :: items[i].name }

  /** The cache after the first `n` candidates are gone. */
  function After(p: Published, candidates: seq<Item>, n: nat): Sweep
    requires n <= |candidates|
  { Sweep(p - NameSet(candidates, n), Names(candidates[..n]), Sum(candidates[..n])) }

  lemma EvictNext(p: Published, candidates: seq<Item>, n: nat)
    requires n < |candidates| && Describes(candidates, p)
    ensures candidates[n].name in p - NameSet(candidates, n)
    ensures EvictOne(After(p, candidates, n), candidates[n]) == After(p, candidates, n + 1)
  {
    SumAppend(candidates, n);
    assert candidates[n].name !in NameSet(candidates, n);
    assert NameSet(candidates, n + 1) == NameSet(candidates, n) + {candidates[n].name};
    assert p - NameSet(candidates, n) - {candidates[n].name} == p - NameSet(candidates, n + 1);
    assert Names(candidates[..n + 1]) == Names(candidates[..n]) + [candidates[n].name];
  }

  lemma {:induction false} AfterConserves(p: Published, candidates: seq<Item>, n: nat)
    requires n <= |candidates| && Describes(candidates, p)
    ensures CacheBytes(p) == CacheBytes(p - NameSet(candidates, n)) + Sum(candidates[..n])
  {
    if n == 0 {
      assert p - NameSet(candidates, 0) == p;
    } else {
      AfterConserves(p, candidates, n - 1);
      EvictNext(p, candidates, n - 1);
      BytesWithout(p - NameSet(candidates, n - 1), candidates[n - 1].name);
    }
  }

  lemma EnoughIsSuffices(p: Published, candidates: seq<Item>, n: nat, other: nat, max: nat, needed: int, goal: int)
    requires n <= |candidates| && Describes(candidates, p)
    ensures Enough(After(p, candidates, n).left, other, max, needed, goal, After(p, candidates, n).freed) <==>
      Suffices(CacheBytes(p), candidates, n, other, max, needed, goal)
  { AfterConserves(p, candidates, n); }

  /** The loop stops at the shortest sufficient prefix. */
  lemma {:induction false} SweepStops(p: Published, candidates: seq<Item>, done: nat, other: nat, max: nat,
        needed: int, goal: int) returns (n: nat)
    requires done <= |candidates| && Describes(candidates, p)
    requires forall m :: 0 <= m < done ==> !Suffices(CacheBytes(p), candidates, m, other, max, needed, goal)
    ensures Shortest(CacheBytes(p), candidates, n, other, max, needed, goal)
    ensures SweepFrom(After(p, candidates, done), candidates[done..], other, max, needed, goal) ==
        After(p, candidates, n)
    decreases |candidates| - done
  {
    EnoughIsSuffices(p, candidates, done, other, max, needed, goal);
    if done == |candidates| || Suffices(CacheBytes(p), candidates, done, other, max, needed, goal) {
      n := done;
    } else {
      assert candidates[done..][1..] == candidates[done + 1..] && candidates[done..][0] == candidates[done];
      EvictNext(p, candidates, done);
      n := SweepStops(p, candidates, done + 1, other, max, needed, goal);
    }
  }

  lemma {:induction false} SumGrows(items: seq<Item>, m: nat, n: nat)
    requires m <= n <= |items|
    ensures Sum(items[..m]) <= Sum(items[..n])
  {
    if m < n {
      SumGrows(items, m, n - 1);
      SumAppend(items, n - 1);
    }
  }

  /** When the request still does not fit, everything is gone exactly unless it was negative and all
      but the last candidate already reached the goal. */
  lemma FailedIsAllIff(before: nat, c: seq<Item>, n: nat, other: nat, max: nat, needed: int, goal: int)
    requires Shortest(before, c, n, other, max, needed, goal) && needed != 0
        && before - Sum(c[..n]) + other + needed > max
    ensures n == |c| <==> needed >= 0 || |c| == 0 || Sum(c[..|c| - 1]) < goal
  {
    if |c| > 0 && needed < 0 {
      if n == |c| { assert !Suffices(before, c, |c| - 1, other, max, needed, goal); }
      if n < |c| { SumGrows(c, n, |c| - 1); }
    }
  }

  lemma NamesAreNameSet(items: seq<Item>, n: nat)
    requires n <= |items|
    ensures forall k :: k in Names(items[..n]) <==> k in NameSet(items, n)
  {
    forall k | k in NameSet(items, n) ensures k in Names(items[..n]) {
      var i :| 0 <= i < n && items[i].name == k;
      assert Names(items[..n])[i] == k;
    }
  }

  lemma CollectStops(p: Published, other: nat, max: nat, needed: int, pinned: set<Digest>, inUse: set<Digest>)
        returns (n: nat)
    requires Tidy(p)
    ensures var c := Candidates(p, pinned, inUse);
      && Describes(c, p) && Shortest(CacheBytes(p), c, n, other, max, needed, Goal(CacheBytes(p), max, needed))
      && CollectFrom(p, other, max, needed, pinned, inUse).sweep == After(p, c, n)
      && CacheBytes(p) == CacheBytes(After(p, c, n).left) + Sum(c[..n])
  {
    var c := Candidates(p, pinned, inUse);
    CandidatesAre(p, pinned, inUse);
    n := SweepStops(p, c, 0, other, max, needed, Goal(CacheBytes(p), max, needed));
    assert c[0..] == c && After(p, c, 0) == Sweep(p, [], 0) by { assert p - {} == p; }
    AfterConserves(p, c, n);
  }

  /** The sweep took away exactly the evicted entries, none of them pinned or in use. */
  ghost predicate OnlyFree(p: Published, s: Sweep, pinned: set<Digest>, inUse: set<Digest>) {
    && (forall k :: k in s.evicted ==> k in p && k !in pinned && k !in inUse)
    && (forall k :: k in s.left <==> k in p && k !in s.evicted)
    && forall k :: k in s.left ==> s.left[k] == p[k]
  }

  lemma AfterTakesOnlyFree(p: Published, n: nat, pinned: set<Digest>, inUse: set<Digest>)
    requires Tidy(p) && n <= |Candidates(p, pinned, inUse)|
    ensures OnlyFree(p, After(p, Candidates(p, pinned, inUse), n), pinned, inUse)
  {
    var c := Candidates(p, pinned, inUse);
    CandidatesAre(p, pinned, inUse);
    NamesAreNameSet(c, n);
    forall k | k in Names(c[..n]) ensures k in p && k !in pinned && k !in inUse {
      var i :| 0 <= i < n && Names(c[..n])[i] == k;
      assert c[i] in c;
    }
  }

  lemma CandidatesOldestFirst(p: Published, pinned: set<Digest>, inUse: set<Digest>)
    requires Tidy(p)
    ensures Sorted(OlderLe, Candidates(p, pinned, inUse))
  { CandidatesAre(p, pinned, inUse); }

  /** What the reported outcome means, `n` candidates being gone. */
  lemma OutcomeMeans(p: Published, other: nat, max: nat, needed: int, pinned: set<Digest>, inUse: set<Digest>, n: nat)
    requires var c := Candidates(p, pinned, inUse);
      && Shortest(CacheBytes(p), c, n, other, max, needed, Goal(CacheBytes(p), max, needed))
      && CacheBytes(p) == CacheBytes(CollectFrom(p, other, max, needed, pinned, inUse).sweep.left) + Sum(c[..n])
    ensures var c := Candidates(p, pinned, inUse);
      var goal := Goal(CacheBytes(p), max, needed);
      var r := CollectFrom(p, other, max, needed, pinned, inUse);
      && (r.outcome == Collected && needed != 0 ==> CacheBytes(r.sweep.left) + other + needed <= max)
      && (r.outcome == Failed ==> (n == |c| <==> needed >= 0 || |c| == 0 || Sum(c[..|c| - 1]) < goal))
  {
    if CollectFrom(p, other, max, needed, pinned, inUse).outcome == Failed {
      FailedIsAllIff(CacheBytes(p), Candidates(p, pinned, inUse), n, other, max, needed,
          Goal(CacheBytes(p), max, needed));
    }
  }

  /** Everything `gc` promises about one confirmed run. */
  lemma CollectEvictsShortestOldestPrefix(
      p: Published, other: nat, max: nat, needed: int, pinned: set<Digest>, inUse: set<Digest>) returns (n: nat)
    requires Tidy(p)
    ensures var c := Candidates(p, pinned, inUse);
      var goal := Goal(CacheBytes(p), max, needed);
      var r := CollectFrom(p, other, max, needed, pinned, inUse);
      && Sorted(OlderLe, c) && Shortest(CacheBytes(p), c, n, other, max, needed, goal)
      && r.sweep.evicted == Names(c[..n]) && OnlyFree(p, r.sweep, pinned, inUse)
      && CacheBytes(p) == CacheBytes(r.sweep.left) + r.sweep.freed
      && (r.outcome == Collected && needed != 0 ==> CacheBytes(r.sweep.left) + other + needed <= max)
      && (r.outcome == Failed ==> (n == |c| <==> needed >= 0 || |c| == 0 || Sum(c[..|c| - 1]) < goal))
  {
    n := CollectStops(p, other, max, needed, pinned, inUse);
    CandidatesOldestFirst(p, pinned, inUse);
    AfterTakesOnlyFree(p, n, pinned, inUse);
    OutcomeMeans(p, other, max, needed, pinned, inUse, n);
  }

  // Two ten-byte entries, for the example below.
  const TEN := Target(None, 0, [], [], 10, 0)
  const ONE: Published := map[2 := TEN]
  const TWO: Published := map[1 := TEN, 2 := TEN]
  const PAIR := [Item(1, 1, 10, false, false, 0), Item(2, 2, 10, false, false, 0)]

  lemma TwoBytes()
    ensures TWO - {1} == ONE && CacheBytes(TWO) == 20 && CacheBytes(ONE) == 10
  {
    BytesWithout(ONE, 2);
    assert ONE - {2} == map[];
    BytesWithout(TWO, 1);
  }

  lemma TwoItems()
    ensures Items(TWO, {}, {}) == PAIR
  {
    assert TWO.Keys == {1, 2} && First(TWO.Keys) == 1 && TWO - {1} == ONE;
    assert ONE.Keys == {2} && First(ONE.Keys) == 2 && ONE - {2} == map[];
    assert Items(ONE, {}, {}) == [ItemFor(2, TEN, {}, {})] + Items(map[], {}, {});
  }

  lemma TwoCandidates()
    ensures Candidates(TWO, {}, {}) == PAIR
  {
    TwoItems();
    assert PAIR[..1] == [PAIR[0]] && PAIR[..1][..0] == [];
    assert Keep(Evictable, PAIR[..1]) == PAIR[..1];
    assert Keep(Evictable, PAIR) == PAIR;
    SortIdempotent(OlderLe, PAIR);
  }

  lemma TwoSwept()
    ensures SweepFrom(Sweep(TWO, [], 0), PAIR, 0, 5, -1, 1) == Sweep(ONE, [1], 10)
  {
    TwoBytes();
    assert EvictOne(Sweep(TWO, [], 0), PAIR[0]) == Sweep(ONE, [1], 10);
    assert SweepFrom(Sweep(ONE, [1], 10), PAIR[1..], 0, 5, -1, 1) == Sweep(ONE, [1], 10);
  }

  /** A negative request is the one case in which "failed" does not mean that every candidate is
      gone: two ten-byte entries over a five-byte budget, of which only one is evicted. */
  lemma NegativeRequestFailsEarly()
    ensures Tidy(TWO) && |Candidates(TWO, {}, {})| == 2
    ensures CollectFrom(TWO, 0, 5, -1, {}, {}).outcome == Failed
        && CollectFrom(TWO, 0, 5, -1, {}, {}).sweep.evicted == [1]
  {
    TwoBytes();
    TwoCandidates();
    TwoSwept();
  }
}
