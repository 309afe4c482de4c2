/** Sorting by a total preorder; stands for the sort package. */
module Sorting {
  import opened Counting
  import opened Text

  ghost predicate Total<T(!new)>(le: (T, T) -> bool) {
    forall a, b :: le(a, b) || le(b, a)
  }

  ghost predicate Transitive<T(!new)>(le: (T, T) -> bool) {
    forall a, b, c :: le(a, b) && le(b, c) ==> le(a, c)
  }

  ghost predicate TotalPreorder<T(!new)>(le: (T, T) -> bool) {
    Total(le) && Transitive(le)
  }

  ghost predicate SortedBy<T(!new)>(s: seq<T>, le: (T, T) -> bool) {
    forall i, j | 0 <= i < j < |s| :: le(s[i], s[j])
  }

  lemma InsertedIsSorted<T(!new)>(s: seq<T>, k: nat, x: T, le: (T, T) -> bool)
    requires Transitive(le) && SortedBy(s, le) && k <= |s|
    requires k > 0 ==> le(s[k - 1], x)
    requires forall j | k <= j < |s| :: le(x, s[j])
    ensures SortedBy(s[..k] + [x] + s[k..], le)
  {
    var out := s[..k] + [x] + s[k..];
    forall j | 0 <= j < k ensures le(s[j], x) {
      if j < k - 1 {
        assert le(s[j], s[k - 1]);
      }
    }
  }

  /** Insert x at the end, moving it left past the elements above it. */
  method Insert<T(!new)>(s: seq<T>, x: T, le: (T, T) -> bool) returns (out: seq<T>)
    requires TotalPreorder(le) && SortedBy(s, le)
    ensures SortedBy(out, le)
    ensures multiset(out) == multiset(s) + multiset{x}
  {
    var k := |s|;
    while k > 0 && !le(s[k - 1], x)
      invariant 0 <= k <= |s|
      invariant forall j | k <= j < |s| :: le(x, s[j])
    {
      k := k - 1;
    }
    InsertedIsSorted(s, k, x, le);
    assert s == s[..k] + s[k..];
    out := s[..k] + [x] + s[k..];
  }

  method Sort<T(!new)>(s: seq<T>, le: (T, T) -> bool) returns (out: seq<T>)
    requires TotalPreorder(le)
    ensures SortedBy(out, le)
    ensures multiset(out) == multiset(s)
    ensures |out| == |s|
    ensures forall x :: x in out <==> x in s
  {
    out := [];
    for i := 0 to |s|
      invariant SortedBy(out, le)
      invariant multiset(out) == multiset(s[..i])
    {
      assert s[..i + 1] == s[..i] + [s[i]];
      out := Insert(out, s[i], le);
    }
    assert s[..|s|] == s;
    assert |out| == |multiset(out)| == |s|;
    assert forall x :: x in out <==> x in multiset(out);
  }

  /** Elements the order does not tell apart are the same. */
  ghost predicate Antisymmetric<T(!new)>(s: seq<T>, le: (T, T) -> bool) {
    forall x, y | x in s && y in s && le(x, y) && le(y, x) :: x == y
  }

  /** A list has only one sorted arrangement, if the order tells its elements apart. */
  lemma {:induction false} SortedArrangementsAgree<T(!new)>(a: seq<T>, b: seq<T>, le: (T, T) -> bool)
    requires multiset(a) == multiset(b) && SortedBy(a, le) && SortedBy(b, le)
    requires TotalPreorder(le) && Antisymmetric(a, le)
    ensures a == b
  {
    hide Total;
    hide Transitive;
    assert |a| == |multiset(a)| == |multiset(b)| == |b|;
    if a != [] {
      var n := |a| - 1;
      SameLast(a, b, le);
      assert a == a[..n] + [a[n]] && b == b[..n] + [b[n]];
      SameWithoutLast(a[..n], b[..n], a[n]);
      assert forall x :: x in a[..n] ==> x in a;
      SortedArrangementsAgree(a[..n], b[..n], le);
    }
  }

  lemma SameLast<T(!new)>(a: seq<T>, b: seq<T>, le: (T, T) -> bool)
    requires multiset(a) == multiset(b) && SortedBy(a, le) && SortedBy(b, le)
    requires Total(le) && Antisymmetric(a, le) && |a| == |b| && a != []
    ensures a[|a| - 1] == b[|b| - 1]
  {
    SameElements(a, b);
    LastIsGreatest(a, b[|b| - 1], le);
    LastIsGreatest(b, a[|a| - 1], le);
  }

  lemma SameWithoutLast<T>(a: seq<T>, b: seq<T>, x: T)
    requires multiset(a + [x]) == multiset(b + [x])
    ensures multiset(a) == multiset(b)
  {
    assert multiset(a) == multiset(a + [x]) - multiset{x};
    assert multiset(b) == multiset(b + [x]) - multiset{x};
  }

  lemma SameElements<T>(a: seq<T>, b: seq<T>)
    requires multiset(a) == multiset(b)
    ensures forall x :: x in a <==> x in b
  {
    assert forall x :: x in a <==> x in multiset(a);
    assert forall x :: x in b <==> x in multiset(b);
  }

  lemma LastIsGreatest<T(!new)>(s: seq<T>, x: T, le: (T, T) -> bool)
    requires s != [] && SortedBy(s, le) && Total(le) && x in s
    ensures le(x, s[|s| - 1])
  {
    var i :| 0 <= i < |s| && s[i] == x;
    if i == |s| - 1 {
      assert le(x, x) || le(x, x);
    }
  }

  /** By one order, then by another. */
  function Lex<T>(first: (T, T) -> bool, second: (T, T) -> bool): (T, T) -> bool {
    (a, b) => first(a, b) && (!first(b, a) || second(a, b))
  }

  lemma LexIsTotal<T(!new)>(first: (T, T) -> bool, second: (T, T) -> bool)
    requires TotalPreorder(first) && TotalPreorder(second)
    ensures TotalPreorder(Lex(first, second))
  {
    var le := Lex(first, second);
    forall a, b ensures le(a, b) || le(b, a) {
      assert first(a, b) || first(b, a);
      assert second(a, b) || second(b, a);
    }
    forall a, b, c | le(a, b) && le(b, c) ensures le(a, c) {
      assert first(a, b) && first(b, c);
      if first(c, a) {
        assert first(c, b) && first(b, a);
        assert second(a, b) && second(b, c);
      }
    }
  }

  /** By a name, as strings compare. */
  function ByName<T>(name: T -> string): (T, T) -> bool {
    (a, b) => AtMost(name(a), name(b))
  }

  lemma ByNameIsTotal<T(!new)>(name: T -> string)
    ensures TotalPreorder(ByName(name))
  {
    forall a, b ensures ByName(name)(a, b) || ByName(name)(b, a) {
      if Less(name(b), name(a)) {
        LessIsAsymmetric(name(b), name(a));
      }
    }
    forall a, b, c | ByName(name)(a, b) && ByName(name)(b, c) ensures ByName(name)(a, c) {
      AtMostIsTransitive(name(a), name(b), name(c));
    }
  }

  function ByRank<T>(rank: T -> int): (T, T) -> bool {
    (a, b) => rank(a) <= rank(b)
  }

  lemma ByRankIsTotal<T(!new)>(rank: T -> int)
    ensures TotalPreorder(ByRank(rank))
  {
  }

  /** Where names are unique, they order completely. */
  lemma UniqueNamesOrder<T(!new)>(s: seq<T>, name: T -> string)
    requires UniqueBy(s, name)
    ensures Antisymmetric(s, ByName(name))
  {
    forall x, y | x in s && y in s && ByName(name)(x, y) && ByName(name)(y, x) ensures x == y {
      LessIsTotal(name(x), name(y));
      KeysIdentify(s, name, x, y);
    }
  }

  /** Filtering keeps the order. */
  lemma {:induction false} FilterKeepsOrder<T(!new)>(s: seq<T>, keep: T -> bool, le: (T, T) -> bool)
    requires SortedBy(s, le)
    ensures SortedBy(Filter(s, keep), le)
  {
    if s != [] {
      var rest, x := s[..|s| - 1], s[|s| - 1];
      var k := Filter(rest, keep);
      FilterKeepsOrder(rest, keep, le);
      forall y <- k ensures le(y, x) {
        var i :| 0 <= i < |rest| && rest[i] == y;
        assert le(s[i], s[|s| - 1]);
      }
      assert forall i | 0 <= i < |k| :: k[i] in k;
    }
  }
}
