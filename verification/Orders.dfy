/** Orders and sorting shared by the other modules: Python's `sorted` on the keys
    the program uses, and the fact that a sorted arrangement is unique. */
module Orders {

  datatype Option<+T> = None | Some(value: T)

  ghost predicate Total<T(!new)>(le: (T, T) -> bool) {
    && (forall x, y :: le(x, y) || le(y, x))
    && (forall x, y, z :: le(x, y) && le(y, z) ==> le(x, z))
  }

  ghost predicate Sorted<T>(le: (T, T) -> bool, s: seq<T>) {
    forall i, j :: 0 <= i < j < |s| ==> le(s[i], s[j])
  }

  /** Insert after every element that may stay in front: keeps equal keys in input order. */
  function Insert<T>(le: (T, T) -> bool, s: seq<T>, x: T): seq<T> {
    if |s| == 0 then [x]
    else if le(s[|s| - 1], x) then s + [x]
    else Insert(le, s[..|s| - 1], x) + [s[|s| - 1]]
  }

  function Sort<T>(le: (T, T) -> bool, s: seq<T>): seq<T> {
    if |s| == 0 then [] else Insert(le, Sort(le, s[..|s| - 1]), s[|s| - 1])
  }

  lemma {:induction false} InsertElements<T>(le: (T, T) -> bool, s: seq<T>, x: T)
    ensures multiset(Insert(le, s, x)) == multiset(s) + multiset{x}
  {
    if |s| > 0 {
      assert s == s[..|s| - 1] + [s[|s| - 1]];
      if !le(s[|s| - 1], x) { InsertElements(le, s[..|s| - 1], x); }
    }
  }

  lemma {:induction false} InsertKeeps<T(!new)>(le: (T, T) -> bool, s: seq<T>, x: T)
    requires Total(le) && Sorted(le, s)
    ensures Sorted(le, Insert(le, s, x))
    ensures multiset(Insert(le, s, x)) == multiset(s) + multiset{x}
  {
    InsertElements(le, s, x);
    if |s| > 0 {
      var front, last := s[..|s| - 1], s[|s| - 1];
      if le(last, x) {
        forall i | 0 <= i < |s| ensures le(s[i], x) {}
      } else {
        InsertKeeps(le, front, x);
        var r := Insert(le, front, x);
        InsertElements(le, front, x);
        forall i | 0 <= i < |r| ensures le(r[i], last) {
          assert r[i] in multiset(r);
          assert r[i] in front || r[i] == x;
        }
      }
    }
  }

  lemma {:induction false} SortSorts<T(!new)>(le: (T, T) -> bool, s: seq<T>)
    requires Total(le)
    ensures Sorted(le, Sort(le, s))
    ensures multiset(Sort(le, s)) == multiset(s)
    ensures |Sort(le, s)| == |s|
  {
    if |s| > 0 {
      var front, last := s[..|s| - 1], s[|s| - 1];
      assert s == front + [last];
      SortSorts(le, front);
      InsertKeeps(le, Sort(le, front), last);
      assert |multiset(Sort(le, s))| == |multiset(s)|;
    }
  }

  /** Membership is what most callers need of the permutation. */
  lemma SameElements<T>(a: seq<T>, b: seq<T>)
    requires multiset(a) == multiset(b)
    ensures forall x :: x in a <==> x in b
    ensures |a| == |b|
  {
    forall x ensures x in a <==> x in b {
      assert x in a <==> x in multiset(a);
      assert x in b <==> x in multiset(b);
    }
    assert |multiset(a)| == |multiset(b)|;
  }

  ghost predicate NoTies<T(!new)>(le: (T, T) -> bool, s: seq<T>) {
    forall x, y :: x in s && y in s && le(x, y) && le(y, x) ==> x == y
  }

  lemma LeastComesFirst<T(!new)>(le: (T, T) -> bool, a: seq<T>, b: seq<T>)
    requires Sorted(le, a) && Sorted(le, b) && |a| > 0 && |b| > 0
    requires a[0] in b && b[0] in a && NoTies(le, a)
    ensures a[0] == b[0]
  {
    var i :| 0 <= i < |b| && b[i] == a[0];
    var j :| 0 <= j < |a| && a[j] == b[0];
    if i != 0 && j != 0 {
      assert le(a[0], a[j]) && le(b[0], b[i]);
      assert a[0] in a;
    }
  }

  lemma DropEqualHeads<T>(a: seq<T>, b: seq<T>)
    requires multiset(a) == multiset(b) && |a| > 0 && |b| > 0 && a[0] == b[0]
    ensures multiset(a[1..]) == multiset(b[1..])
  {
    assert a == [a[0]] + a[1..] && b == [b[0]] + b[1..];
    assert multiset(a) == multiset{a[0]} + multiset(a[1..]);
    assert multiset(b) == multiset{b[0]} + multiset(b[1..]);
    assert multiset(a[1..]) == multiset(a) - multiset{a[0]};
  }

  lemma TailOf<T(!new)>(le: (T, T) -> bool, s: seq<T>)
    requires Sorted(le, s) && NoTies(le, s) && |s| > 0
    ensures Sorted(le, s[1..]) && NoTies(le, s[1..])
  {}

  /** Two sorted arrangements of the same elements are the same sequence. */
  lemma {:induction false} SortedUnique<T(!new)>(le: (T, T) -> bool, a: seq<T>, b: seq<T>)
    requires Sorted(le, a) && Sorted(le, b)
    requires multiset(a) == multiset(b)
    requires NoTies(le, a)
    ensures a == b
  {
    SameElements(a, b);
    if |a| > 0 {
      assert NoTies(le, b);
      assert a[0] in a && b[0] in b;
      LeastComesFirst(le, a, b);
      DropEqualHeads(a, b);
      TailOf(le, a);
      TailOf(le, b);
      SortedUnique(le, a[1..], b[1..]);
      assert a == [a[0]] + a[1..] && b == [b[0]] + b[1..];
    }
  }

  lemma {:induction false} SortIdempotent<T(!new)>(le: (T, T) -> bool, s: seq<T>)
    requires Sorted(le, s)
    ensures Sort(le, s) == s
  {
    if |s| > 0 {
      SortIdempotent(le, s[..|s| - 1]);
      if |s| > 1 { assert le(s[|s| - 2], s[|s| - 1]); }
      assert s == s[..|s| - 1] + [s[|s| - 1]];
    }
  }

  lemma {:induction false} InsertLength<T>(le: (T, T) -> bool, s: seq<T>, x: T)
    ensures |Insert(le, s, x)| == |s| + 1
  { if |s| > 0 && !le(s[|s| - 1], x) { InsertLength(le, s[..|s| - 1], x); } }

  lemma {:induction false} SortLength<T>(le: (T, T) -> bool, s: seq<T>)
    ensures |Sort(le, s)| == |s|
  {
    if |s| > 0 {
      SortLength(le, s[..|s| - 1]);
      InsertLength(le, Sort(le, s[..|s| - 1]), s[|s| - 1]);
    }
  }

  lemma SortOne<T>(le: (T, T) -> bool, x: T)
    ensures Sort(le, [x]) == [x]
  {
    assert [x][..0] == [] && Sort(le, []) == [];
  }

  /** Lexicographic order, as Python compares byte strings and lists of integers. */
  predicate LexLe(a: seq<int>, b: seq<int>) {
    if |a| == 0 then true
    else if |b| == 0 then false
    else if a[0] != b[0] then a[0] < b[0]
    else LexLe(a[1..], b[1..])
  }

  lemma {:induction false} LexTotal(a: seq<int>, b: seq<int>)
    ensures LexLe(a, b) || LexLe(b, a)
    ensures LexLe(a, b) && LexLe(b, a) ==> a == b
  {
    if |a| > 0 && |b| > 0 && a[0] == b[0] {
      LexTotal(a[1..], b[1..]);
      assert a == [a[0]] + a[1..] && b == [b[0]] + b[1..];
    }
  }

  lemma {:induction false} LexTransitive(a: seq<int>, b: seq<int>, c: seq<int>)
    requires LexLe(a, b) && LexLe(b, c)
    ensures LexLe(a, c)
  {
    if |a| > 0 && |b| > 0 && |c| > 0 && a[0] == b[0] == c[0] {
      LexTransitive(a[1..], b[1..], c[1..]);
    }
  }

  function Codes(s: string): (r: seq<int>)
    ensures |r| == |s| && forall i :: 0 <= i < |s| ==> r[i] == s[i] as int
  {
    seq(|s|, i requires 0 <= i < |s| => s[i] as int)
  }

  lemma CodesInjective(a: string, b: string)
    requires Codes(a) == Codes(b)
    ensures a == b
  {
    forall i | 0 <= i < |a| ensures a[i] == b[i] {
      assert Codes(a)[i] == Codes(b)[i];
    }
  }

  /** Python's `<=` on text: code point by code point. */
  predicate TextLe(a: string, b: string) { LexLe(Codes(a), Codes(b)) }

  lemma TextLeAntisymmetric(a: string, b: string)
    requires TextLe(a, b) && TextLe(b, a)
    ensures a == b
  {
    LexTotal(Codes(a), Codes(b));
    CodesInjective(a, b);
  }

  lemma TextLeOrder()
    ensures Total(TextLe)
    ensures forall a, b :: TextLe(a, b) && TextLe(b, a) ==> a == b
  {
    forall a, b ensures TextLe(a, b) || TextLe(b, a) { LexTotal(Codes(a), Codes(b)); }
    forall a, b, c | TextLe(a, b) && TextLe(b, c) ensures TextLe(a, c) {
      LexTransitive(Codes(a), Codes(b), Codes(c));
    }
    forall a, b | TextLe(a, b) && TextLe(b, a) ensures a == b { TextLeAntisymmetric(a, b); }
  }

  ghost predicate NoDuplicates<T>(s: seq<T>) {
    forall i, j :: 0 <= i < j < |s| ==> s[i] != s[j]
  }

  function Without<T>(s: seq<T>, k: nat): seq<T> requires k < |s| { s[..k] + s[k + 1..] }

  lemma WithoutOne<T>(s: seq<T>, k: nat)
    requires k < |s| && NoDuplicates(s)
    ensures multiset(s) == multiset(Without(s, k)) + multiset{s[k]}
    ensures NoDuplicates(Without(s, k))
    ensures forall x :: x in s && x != s[k] ==> x in Without(s, k)
  {
    var rest := Without(s, k);
    assert s == s[..k] + [s[k]] + s[k + 1..];
    forall x | x in s && x != s[k] ensures x in rest {
      var m :| 0 <= m < |s| && s[m] == x;
      assert m < k ==> rest[m] == x;
      assert m > k ==> rest[m - 1] == x;
    }
  }

  /** Counting: a duplicate-free sequence whose elements all occur in another one of
      the same length is a rearrangement of it. */
  lemma {:induction false} Rearranged<T(!new)>(a: seq<T>, b: seq<T>)
    requires NoDuplicates(a) && NoDuplicates(b) && |a| == |b|
    requires forall i :: 0 <= i < |a| ==> a[i] in b
    ensures multiset(a) == multiset(b)
  {
    if |a| > 0 {
      var k :| 0 <= k < |b| && b[k] == a[0];
      WithoutOne(b, k);
      var rest, tail := Without(b, k), a[1..];
      forall i | 0 <= i < |tail| ensures tail[i] in rest { assert tail[i] == a[i + 1]; }
      Rearranged(tail, rest);
      assert a == [a[0]] + tail;
    }
  }

  lemma {:induction false} CountOnce<T>(s: seq<T>, x: T)
    requires NoDuplicates(s)
    ensures multiset(s)[x] <= 1
  {
    if |s| > 0 {
      CountOnce(s[1..], x);
      assert s == [s[0]] + s[1..];
      if s[0] == x { assert x !in s[1..]; assert x !in multiset(s[1..]); }
    }
  }

  lemma CountTwice<T>(s: seq<T>, i: nat, j: nat)
    requires i < j < |s| && s[i] == s[j]
    ensures multiset(s)[s[i]] >= 2
  {
    assert s == s[..i] + [s[i]] + s[i + 1..j] + [s[j]] + s[j + 1..];
  }

  lemma PermutationNoDuplicates<T>(a: seq<T>, b: seq<T>)
    requires multiset(a) == multiset(b) && NoDuplicates(a)
    ensures NoDuplicates(b)
  {
    forall i, j | 0 <= i < j < |b| ensures b[i] != b[j] {
      if b[i] == b[j] {
        CountTwice(b, i, j);
        CountOnce(a, b[i]);
      }
    }
  }

  lemma SameMembers<T(!new)>(a: seq<T>, b: seq<T>)
    requires NoDuplicates(a) && NoDuplicates(b) && forall x :: x in a <==> x in b
    ensures multiset(a) == multiset(b) && |a| == |b|
  {
    forall x ensures multiset(a)[x] == multiset(b)[x] {
      CountOnce(a, x);
      CountOnce(b, x);
      assert x in multiset(a) <==> x in a;
      assert x in multiset(b) <==> x in b;
    }
    assert multiset(a) == multiset(b);
    assert |multiset(a)| == |multiset(b)|;
  }

  /** Sorting is blind to the arrangement it starts from when no two elements tie. */
  lemma SortPermutation<T(!new)>(le: (T, T) -> bool, a: seq<T>, b: seq<T>)
    requires Total(le) && multiset(a) == multiset(b) && NoTies(le, a)
    ensures Sort(le, a) == Sort(le, b)
  {
    SortSorts(le, a);
    SortSorts(le, b);
    SameElements(a, Sort(le, a));
    SortedUnique(le, Sort(le, a), Sort(le, b));
  }

  // ---- Lists made element by element -------------------------------------------------------

  function FlatMap<T, U>(f: T -> seq<U>, s: seq<T>): seq<U> {
    if |s| == 0 then [] else FlatMap(f, s[..|s| - 1]) + f(s[|s| - 1])
  }

  lemma {:induction false} FlatMapAppend<T, U>(f: T -> seq<U>, a: seq<T>, b: seq<T>)
    ensures FlatMap(f, a + b) == FlatMap(f, a) + FlatMap(f, b)
  {
    if |b| == 0 {
      assert a + b == a;
    } else {
      assert (a + b)[..|a + b| - 1] == a + b[..|b| - 1];
      FlatMapAppend(f, a, b[..|b| - 1]);
    }
  }

  lemma {:induction false} FlatMapMembers<T, U>(f: T -> seq<U>, s: seq<T>, y: U)
    ensures y in FlatMap(f, s) <==> exists i :: 0 <= i < |s| && y in f(s[i])
  {
    if |s| > 0 {
      var front := s[..|s| - 1];
      FlatMapMembers(f, front, y);
      if i :| 0 <= i < |front| && y in f(front[i]) { assert s[i] == front[i]; }
      if i :| 0 <= i < |s| && y in f(s[i]) { assert i < |front| ==> front[i] == s[i]; }
    }
  }

  lemma FlatMapAround<T, U>(f: T -> seq<U>, a: seq<T>, x: T, b: seq<T>)
    ensures multiset(FlatMap(f, a + [x] + b)) == multiset(FlatMap(f, a + b)) + multiset(f(x))
  {
    FlatMapAppend(f, a + [x], b);
    FlatMapAppend(f, a, [x]);
    FlatMapAppend(f, a, b);
    assert [x][..0] == [];
    assert FlatMap(f, [x]) == f(x);
  }

  lemma {:induction false} FlatMapPermutation<T, U>(f: T -> seq<U>, a: seq<T>, b: seq<T>)
    requires multiset(a) == multiset(b)
    ensures multiset(FlatMap(f, a)) == multiset(FlatMap(f, b))
  {
    SameElements(a, b);
    if |a| > 0 {
      var front, x := a[..|a| - 1], a[|a| - 1];
      assert a == front + [x];
      assert x in b;
      var k :| 0 <= k < |b| && b[k] == x;
      assert b == b[..k] + [x] + b[k + 1..];
      assert multiset(a) == multiset(front) + multiset{x};
      assert multiset(b) == multiset(b[..k] + b[k + 1..]) + multiset{x};
      assert multiset(front) == multiset(a) - multiset{x};
      FlatMapPermutation(f, front, b[..k] + b[k + 1..]);
      FlatMapAround(f, b[..k], x, b[k + 1..]);
    }
  }

  /** Python's filtering comprehension. */
  function Keep<T>(p: T -> bool, s: seq<T>): seq<T> {
    if |s| == 0 then [] else Keep(p, s[..|s| - 1]) + (if p(s[|s| - 1]) then [s[|s| - 1]] else [])
  }

  lemma {:induction false} KeepAppend<T>(p: T -> bool, a: seq<T>, b: seq<T>)
    ensures Keep(p, a + b) == Keep(p, a) + Keep(p, b)
  {
    if |b| == 0 {
      assert a + b == a;
    } else {
      assert (a + b)[..|a + b| - 1] == a + b[..|b| - 1];
      KeepAppend(p, a, b[..|b| - 1]);
    }
  }

  lemma {:induction false} KeepMembers<T>(p: T -> bool, s: seq<T>)
    ensures forall x :: x in Keep(p, s) <==> x in s && p(x)
    ensures forall i :: 0 <= i < |Keep(p, s)| ==> Keep(p, s)[i] in s
  {
    if |s| > 0 {
      KeepMembers(p, s[..|s| - 1]);
      assert s == s[..|s| - 1] + [s[|s| - 1]];
    }
  }

  lemma {:induction false} KeepNone<T>(p: T -> bool, s: seq<T>)
    requires forall i :: 0 <= i < |s| ==> !p(s[i])
    ensures Keep(p, s) == []
  { if |s| > 0 { KeepNone(p, s[..|s| - 1]); } }

  lemma {:induction false} KeepNoDuplicates<T>(p: T -> bool, s: seq<T>)
    requires NoDuplicates(s)
    ensures NoDuplicates(Keep(p, s))
  {
    if |s| > 0 {
      KeepNoDuplicates(p, s[..|s| - 1]);
      KeepMembers(p, s[..|s| - 1]);
    }
  }

  lemma {:induction false} KeepCount<T>(p: T -> bool, s: seq<T>, x: T)
    ensures multiset(Keep(p, s))[x] == if p(x) then multiset(s)[x] else 0
  {
    if |s| > 0 {
      KeepCount(p, s[..|s| - 1], x);
      assert s == s[..|s| - 1] + [s[|s| - 1]];
    }
  }

  /** The elements that tie with `x`. */
  function Tied<T>(le: (T, T) -> bool, x: T): T -> bool { y => le(x, y) && le(y, x) }

  lemma KeepOne<T>(p: T -> bool, s: seq<T>, x: T)
    ensures Keep(p, s + [x]) == Keep(p, s) + if p(x) then [x] else []
  {
    assert (s + [x])[..|s|] == s;
  }

  lemma {:induction false} InsertStable<T(!new)>(le: (T, T) -> bool, s: seq<T>, y: T, x: T)
    requires Total(le)
    ensures Keep(Tied(le, x), Insert(le, s, y)) == Keep(Tied(le, x), s) + if Tied(le, x)(y) then [y] else []
  {
    var p := Tied(le, x);
    if |s| == 0 {
      KeepOne(p, [], y);
      assert [] + [y] == [y];
    } else {
      var front, last := s[..|s| - 1], s[|s| - 1];
      assert s == front + [last];
      if le(last, y) {
        KeepOne(p, s, y);
      } else {
        InsertStable(le, front, y, x);
        KeepOne(p, Insert(le, front, y), last);
        KeepOne(p, front, last);
        assert !(p(last) && p(y));
      }
    }
  }

  /** Sorting keeps elements that tie in the order they came. */
  lemma {:induction false} SortStable<T(!new)>(le: (T, T) -> bool, s: seq<T>, x: T)
    requires Total(le)
    ensures Keep(Tied(le, x), Sort(le, s)) == Keep(Tied(le, x), s)
  {
    if |s| > 0 {
      var front, last := s[..|s| - 1], s[|s| - 1];
      assert s == front + [last];
      SortStable(le, front, x);
      InsertStable(le, Sort(le, front), last, x);
      KeepOne(Tied(le, x), front, last);
    }
  }

  /** A list in which two different elements tie can be arranged so that its sorted form differs. */
  lemma TiesShow<T(!new)>(le: (T, T) -> bool, x: T, y: T, rest: seq<T>)
    requires Total(le) && le(x, y) && le(y, x) && x != y
    ensures Sort(le, [x, y] + rest) != Sort(le, [y, x] + rest)
  {
    var p := Tied(le, x);
    SortStable(le, [x, y] + rest, x);
    SortStable(le, [y, x] + rest, x);
    KeepPair(p, x, y, rest);
    KeepPair(p, y, x, rest);
    assert le(x, x);
    assert ([x, y] + Keep(p, rest))[0] != ([y, x] + Keep(p, rest))[0];
  }

  lemma KeepPair<T>(p: T -> bool, x: T, y: T, rest: seq<T>)
    requires p(x) && p(y)
    ensures Keep(p, [x, y] + rest) == [x, y] + Keep(p, rest)
  {
    KeepAppend(p, [x, y], rest);
    KeepOne(p, [], x);
    KeepOne(p, [x], y);
    assert [] + [x] == [x] && [x] + [y] == [x, y];
  }

  function Map<T, U>(f: T -> U, s: seq<T>): (r: seq<U>)
    ensures |r| == |s| && forall i :: 0 <= i < |s| ==> r[i] == f(s[i])
  { seq(|s|, i requires 0 <= i < |s| => f(s[i])) }

  lemma {:induction false} MapIsFlat<T, U>(f: T -> U, s: seq<T>)
    ensures Map(f, s) == FlatMap(x => [f(x)], s)
  {
    if |s| > 0 {
      MapIsFlat(f, s[..|s| - 1]);
      assert Map(f, s) == Map(f, s[..|s| - 1]) + [f(s[|s| - 1])];
    }
  }

  lemma MapPermutation<T, U>(f: T -> U, a: seq<T>, b: seq<T>)
    requires multiset(a) == multiset(b)
    ensures multiset(Map(f, a)) == multiset(Map(f, b))
  {
    MapIsFlat(f, a);
    MapIsFlat(f, b);
    FlatMapPermutation(x => [f(x)], a, b);
  }

  lemma TakeOut<T>(s: seq<T>, k: nat)
    requires k < |s|
    ensures multiset(s) == multiset(Without(s, k)) + multiset{s[k]}
  {
    assert s == s[..k] + [s[k]] + s[k + 1..];
  }

  /** Any two places of a list can be moved to its front, in either order. */
  lemma PairToFront<T>(s: seq<T>, i: nat, j: nat) returns (rest: seq<T>)
    requires i < j < |s|
    ensures multiset([s[i], s[j]] + rest) == multiset(s) && multiset([s[j], s[i]] + rest) == multiset(s)
  {
    TakeOut(s, j);
    var others := Without(s, j);
    assert others[i] == s[i];
    TakeOut(others, i);
    rest := Without(others, i);
  }

  ghost predicate ArrangementHidden<T(!new), U>(le: (U, U) -> bool, f: T -> U, s: seq<T>) {
    forall other: seq<T> :: multiset(other) == multiset(s) ==> Sort(le, Map(f, other)) == Sort(le, Map(f, s))
  }

  lemma UntiedHides<T(!new), U(!new)>(le: (U, U) -> bool, f: T -> U, s: seq<T>)
    requires Total(le) && NoTies(le, Map(f, s))
    ensures ArrangementHidden(le, f, s)
  {
    forall other: seq<T> | multiset(other) == multiset(s) ensures Sort(le, Map(f, other)) == Sort(le, Map(f, s)) {
      MapPermutation(f, s, other);
      SortPermutation(le, Map(f, s), Map(f, other));
    }
  }

  lemma TieShows<T(!new), U(!new)>(le: (U, U) -> bool, f: T -> U, s: seq<T>, i: nat, j: nat)
    requires Total(le) && i < j < |s| && f(s[i]) != f(s[j]) && le(f(s[i]), f(s[j])) && le(f(s[j]), f(s[i]))
    ensures !ArrangementHidden(le, f, s)
  {
    var rest := PairToFront(s, i, j);
    MapPair(f, s[i], s[j], rest);
    MapPair(f, s[j], s[i], rest);
    TiesShow(le, f(s[i]), f(s[j]), Map(f, rest));
  }

  lemma MapPair<T, U>(f: T -> U, x: T, y: T, rest: seq<T>)
    ensures Map(f, [x, y] + rest) == [f(x), f(y)] + Map(f, rest)
  {}

  /** Sorting the images of a list is blind to its arrangement if and only if no two different images tie. */
  lemma ArrangementHiddenIff<T(!new), U(!new)>(le: (U, U) -> bool, f: T -> U, s: seq<T>)
    requires Total(le)
    ensures ArrangementHidden(le, f, s) <==> NoTies(le, Map(f, s))
  {
    var m := Map(f, s);
    if NoTies(le, m) {
      UntiedHides(le, f, s);
    } else {
      var x, y :| x in m && y in m && le(x, y) && le(y, x) && x != y;
      var a :| 0 <= a < |m| && m[a] == x;
      var b :| 0 <= b < |m| && m[b] == y;
      if a < b { TieShows(le, f, s, a, b); } else { TieShows(le, f, s, b, a); }
    }
  }
}
