/** Counting the elements of a sequence that satisfy a predicate. */
module Counting {

  function CountIf<T>(s: seq<T>, p: T -> bool): nat {
    if s == [] then 0
    else CountIf(s[..|s| - 1], p) + (if p(s[|s| - 1]) then 1 else 0)
  }

  lemma CountAppend<T>(s: seq<T>, x: T, p: T -> bool)
    ensures CountIf(s + [x], p) == CountIf(s, p) + (if p(x) then 1 else 0)
  {
    assert (s + [x])[..|s|] == s;
  }

  lemma {:induction false} CountConcat<T>(a: seq<T>, b: seq<T>, p: T -> bool)
    ensures CountIf(a + b, p) == CountIf(a, p) + CountIf(b, p)
    decreases |b|
  {
    if b == [] {
      assert a + b == a;
    } else {
      var b' := b[..|b| - 1];
      assert (a + b)[..|a + b| - 1] == a + b';
      CountConcat(a, b', p);
    }
  }

  /** No element is listed twice. */
  ghost predicate Distinct<T(!new)>(s: seq<T>) {
    forall i, j | 0 <= i < j < |s| :: s[i] != s[j]
  }

  lemma DistinctAppend<T(!new)>(s: seq<T>, x: T)
    requires Distinct(s) && x !in s
    ensures Distinct(s + [x])
  {
  }

  /** No two elements have the same key. */
  ghost predicate UniqueBy<T(!new), K(!new)>(s: seq<T>, key: T -> K) {
    forall i, j | 0 <= i < j < |s| :: key(s[i]) != key(s[j])
  }

  lemma KeysIdentify<T(!new), K(!new)>(s: seq<T>, key: T -> K, x: T, y: T)
    requires UniqueBy(s, key) && x in s && y in s && key(x) == key(y)
    ensures x == y
  {
  }

  function KeyIs<T, K(==)>(key: T -> K, k: K): T -> bool {
    x => key(x) == k
  }

  lemma {:induction false} UniqueMeansAtMostOnce<T(!new), K(!new)>(s: seq<T>, key: T -> K, k: K)
    requires UniqueBy(s, key)
    ensures CountIf(s, KeyIs(key, k)) <= 1
    ensures (forall x <- s :: key(x) != k) ==> CountIf(s, KeyIs(key, k)) == 0
  {
    if s != [] {
      var rest := s[..|s| - 1];
      UniqueMeansAtMostOnce(rest, key, k);
      assert s == rest + [s[|s| - 1]];
    }
  }

  lemma CountTwice<T>(s: seq<T>, i: nat, j: nat, p: T -> bool)
    requires i < j < |s| && p(s[i]) && p(s[j])
    ensures CountIf(s, p) >= 2
  {
    assert s == s[..j] + [s[j]] + s[j + 1..];
    CountInsert(s[..j], s[j], s[j + 1..], p);
    CountConcat(s[..j], s[j + 1..], p);
    assert s[..j] == s[..j][..i] + [s[i]] + s[..j][i + 1..];
    CountInsert(s[..j][..i], s[i], s[..j][i + 1..], p);
  }

  /** Reordering keeps keys unique. */
  lemma UniqueByPermutes<T(!new), K(!new)>(a: seq<T>, b: seq<T>, key: T -> K)
    requires multiset(a) == multiset(b) && UniqueBy(a, key)
    ensures UniqueBy(b, key)
  {
    forall i, j | 0 <= i < j < |b| ensures key(b[i]) != key(b[j]) {
      if key(b[i]) == key(b[j]) {
        CountPermutation(a, b, KeyIs(key, key(b[i])));
        UniqueMeansAtMostOnce(a, key, key(b[i]));
        CountTwice(b, i, j, KeyIs(key, key(b[i])));
      }
    }
  }

  lemma SmallerSet<T>(a: set<T>, b: set<T>)
    requires a <= b
    ensures |a| <= |b|
  {
    assert b == a + (b - a);
  }

  function EqualTo<T(==)>(x: T): T -> bool {
    y => y == x
  }

  /** The multiplicity of an element is how often it is counted. */
  lemma {:induction false} CountMultiplicity<T>(s: seq<T>, x: T)
    ensures multiset(s)[x] == CountIf(s, EqualTo(x))
  {
    if s != [] {
      CountMultiplicity(s[..|s| - 1], x);
      assert s == s[..|s| - 1] + [s[|s| - 1]];
    }
  }

  /** Reordering does not change what is counted. */
  lemma {:induction false} CountPermutation<T>(a: seq<T>, b: seq<T>, p: T -> bool)
    requires multiset(a) == multiset(b)
    ensures CountIf(a, p) == CountIf(b, p)
    decreases |a|
  {
    if a == [] {
      assert |multiset(b)| == |b|;
    } else {
      var a', x := a[..|a| - 1], a[|a| - 1];
      var k := LastTaken(a, b);
      CountPermutation(a', b[..k] + b[k + 1..], p);
      assert a == a' + [x];
      CountInsert(b[..k], x, b[k + 1..], p);
    }
  }

  /** Taking the last element of a out of a permutation of a. */
  lemma LastTaken<T>(a: seq<T>, b: seq<T>) returns (k: nat)
    requires multiset(a) == multiset(b) && a != []
    ensures k < |b| && b == b[..k] + [a[|a| - 1]] + b[k + 1..]
    ensures multiset(a[..|a| - 1]) == multiset(b[..k] + b[k + 1..])
  {
    var x := a[|a| - 1];
    assert a == a[..|a| - 1] + [x];
    assert x in multiset(b);
    k :| k < |b| && b[k] == x;
    SplitAt(b, k);
  }

  lemma SplitAt<T>(b: seq<T>, k: nat)
    requires k < |b|
    ensures b == b[..k] + [b[k]] + b[k + 1..]
    ensures multiset(b[..k] + b[k + 1..]) == multiset(b) - multiset{b[k]}
  {
    assert b == b[..k] + [b[k]] + b[k + 1..];
  }

  lemma CountInsert<T>(a: seq<T>, x: T, b: seq<T>, p: T -> bool)
    ensures CountIf(a + [x] + b, p) == CountIf(a + b, p) + (if p(x) then 1 else 0)
  {
    CountConcat(a + [x], b, p);
    CountConcat(a, b, p);
    CountAppend(a, x, p);
  }

  function Mapped<S, T>(s: seq<S>, f: S -> T): seq<T> {
    seq(|s|, i requires 0 <= i < |s| => f(s[i]))
  }

  lemma NothingMapped<T>(s: seq<T>, f: T -> T)
    ensures Mapped(s[..0], f) + s[0..] == s
  {
  }

  lemma MappedNext<T>(s: seq<T>, f: T -> T, i: nat)
    requires i < |s|
    ensures |Mapped(s[..i], f)| == i && (Mapped(s[..i], f) + s[i..])[i] == s[i]
    ensures (Mapped(s[..i], f) + s[i..])[i := f(s[i])] == Mapped(s[..i + 1], f) + s[i + 1..]
  {
  }

  lemma MappedConcat<S, T>(a: seq<S>, b: seq<S>, f: S -> T)
    ensures Mapped(a + b, f) == Mapped(a, f) + Mapped(b, f)
  {
  }

  /** Mapping commutes with reordering. */
  lemma {:induction false} MappedPermutes<S, T>(a: seq<S>, b: seq<S>, f: S -> T)
    requires multiset(a) == multiset(b)
    ensures multiset(Mapped(a, f)) == multiset(Mapped(b, f))
    decreases |a|
  {
    if a == [] {
      assert |multiset(b)| == |b|;
    } else {
      var a', x := a[..|a| - 1], a[|a| - 1];
      var k := LastTaken(a, b);
      MappedPermutes(a', b[..k] + b[k + 1..], f);
      assert a == a' + [x];
      MappedConcat(a', [x], f);
      MappedConcat(b[..k], b[k + 1..], f);
      MappedConcat(b[..k] + [x], b[k + 1..], f);
      MappedConcat(b[..k], [x], f);
    }
  }

  /** Two lists without repetition of the same elements are arrangements of each other. */
  lemma {:induction false} SameElementsPermute<T(!new)>(a: seq<T>, b: seq<T>)
    requires Distinct(a) && Distinct(b) && forall x :: x in a <==> x in b
    ensures multiset(a) == multiset(b)
    decreases |a|
  {
    if a == [] {
      NonEmptyHas(b);
    } else {
      var a', x := a[..|a| - 1], a[|a| - 1];
      assert a == a' + [x];
      assert x in a;
      var k :| 0 <= k < |b| && b[k] == x;
      var b' := b[..k] + b[k + 1..];
      SplitAt(b, k);
      TakenElements(b, k);
      assert x !in a';
      forall y ensures y in a' <==> y in b' {
        assert y in a <==> y in a' || y == x;
      }
      SameElementsPermute(a', b');
    }
  }

  lemma NonEmptyHas<T(!new)>(b: seq<T>)
    ensures b != [] ==> exists x :: x in b
  {
    if b != [] {
      assert b[0] in b;
    }
  }

  lemma TakenElements<T(!new)>(b: seq<T>, k: nat)
    requires Distinct(b) && k < |b|
    ensures var b' := b[..k] + b[k + 1..]; Distinct(b') && forall y :: y in b' <==> y in b && y != b[k]
  {
    var b' := b[..k] + b[k + 1..];
    forall y | y in b && y != b[k] ensures y in b' {
      var i :| 0 <= i < |b| && b[i] == y;
      assert i < k ==> b'[i] == y;
      assert i > k ==> b'[i - 1] == y;
    }
    forall i | 0 <= i < |b'| ensures b'[i] != b[k] && b'[i] in b {
      assert b'[i] == if i < k then b[i] else b[i + 1];
    }
  }

  function Filter<T(!new)>(s: seq<T>, keep: T -> bool): (r: seq<T>)
    ensures forall x :: x in r <==> x in s && keep(x)
  {
    if s == [] then []
    else
      var rest := Filter(s[..|s| - 1], keep);
      assert s == s[..|s| - 1] + [s[|s| - 1]];
      if keep(s[|s| - 1]) then rest + [s[|s| - 1]] else rest
  }

  lemma {:induction false} FilterKeepsUnique<T(!new), K(!new)>(s: seq<T>, keep: T -> bool, key: T -> K)
    requires UniqueBy(s, key)
    ensures UniqueBy(Filter(s, keep), key)
  {
    if s != [] {
      var rest, x := s[..|s| - 1], s[|s| - 1];
      FilterKeepsUnique(rest, keep, key);
      forall y <- Filter(rest, keep) ensures key(y) != key(x) {
        var i :| 0 <= i < |rest| && rest[i] == y;
        assert key(s[i]) != key(s[|s| - 1]);
      }
    }
  }

  /** The places at say where in s the elements of t stand, in order. */
  ghost predicate StandsAt<T(!new)>(s: seq<T>, t: seq<T>, at: seq<nat>) {
    && |at| == |t|
    && (forall i | 0 <= i < |t| :: at[i] < |s| && s[at[i]] == t[i])
    && (forall i, j | 0 <= i < j < |t| :: at[i] < at[j])
  }

  /** t is s without these elements; the others are each there as often as
      before, and in their order. */
  ghost predicate Leaves<T(!new)>(s: seq<T>, t: seq<T>, gone: T -> bool) {
    && (forall x :: multiset(t)[x] == if gone(x) then 0 else multiset(s)[x])
    && exists at :: StandsAt(s, t, at)
  }

  lemma {:induction false} FilterStands<T(!new)>(s: seq<T>, keep: T -> bool) returns (at: seq<nat>)
    ensures StandsAt(s, Filter(s, keep), at)
  {
    hide StandsAt;
    if s == [] {
      at := [];
      NothingStands(s);
    } else {
      var before := FilterStands(s[..|s| - 1], keep);
      at := if keep(s[|s| - 1]) then before + [|s| - 1] else before;
      StandsLonger(s, Filter(s[..|s| - 1], keep), before);
    }
  }

  lemma NothingStands<T(!new)>(s: seq<T>)
    ensures StandsAt(s, [], [])
  {
  }

  lemma StandsLonger<T(!new)>(s: seq<T>, t: seq<T>, at: seq<nat>)
    requires s != [] && StandsAt(s[..|s| - 1], t, at)
    ensures StandsAt(s, t, at) && StandsAt(s, t + [s[|s| - 1]], at + [|s| - 1])
  {
    forall i | 0 <= i < |t| ensures at[i] < |s| - 1 && s[at[i]] == t[i] {
      assert s[..|s| - 1][at[i]] == s[at[i]];
    }
  }

  lemma {:induction false} FilterCounts<T(!new)>(s: seq<T>, keep: T -> bool, x: T)
    ensures multiset(Filter(s, keep))[x] == if keep(x) then multiset(s)[x] else 0
  {
    if s != [] {
      FilterCounts(s[..|s| - 1], keep, x);
      assert s == s[..|s| - 1] + [s[|s| - 1]];
    }
  }

  lemma FilterLeaves<T(!new)>(s: seq<T>, keep: T -> bool, gone: T -> bool)
    requires forall x :: gone(x) <==> !keep(x)
    ensures Leaves(s, Filter(s, keep), gone)
  {
    var at := FilterStands(s, keep);
    forall x { FilterCounts(s, keep, x); }
  }

  lemma FilterMapAppend<S(!new), T>(s: seq<S>, x: S, keep: S -> bool, f: S -> T)
    ensures Mapped(Filter(s + [x], keep), f) == Mapped(Filter(s, keep), f) + if keep(x) then [f(x)] else []
  {
    assert (s + [x])[..|s|] == s;
    assert Filter(s + [x], keep) == Filter(s, keep) + if keep(x) then [x] else [];
  }
}
