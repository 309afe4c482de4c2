/** A catalog's canonical form, and equality of catalogs. */
module Canonical {
  import opened Counting
  import opened Sorting
  import opened Text
  import opened Catalogs
  import opened RuleKeys

  // -------------------------------------------------------------- rule order

  function ScopeRank(r: QuotaRule): int {
    match r.scope
    case Anywhere => 0
    case InPool => 1
    case OnNode => 2
    case OtherScope(_) => 3
  }

  function SubjectRank(r: QuotaRule): int {
    match r.subject
    case Everyone => 0
    case OneGroup => 1
    case OneUser => 2
    case OtherSubject(_) => 3
  }

  function TogetherRank(r: QuotaRule): int {
    if r.together then 1 else 0
  }

  function TargetOf(r: QuotaRule): string { r.target }

  function RuleName(r: QuotaRule): string { r.name }

  /** Everywhere, then pools, then nodes; everyone, then groups, then users; each before together. */
  predicate RuleLess(a: QuotaRule, b: QuotaRule) {
    if ScopeRank(a) != ScopeRank(b) then ScopeRank(a) < ScopeRank(b)
    else if a.target != b.target then Less(a.target, b.target)
    else if SubjectRank(a) != SubjectRank(b) then SubjectRank(a) < SubjectRank(b)
    else if a.name != b.name then Less(a.name, b.name)
    else !a.together && b.together
  }

  function RuleOrder(): (QuotaRule, QuotaRule) -> bool {
    (a, b) => !RuleLess(b, a)
  }

  /** What comes first: rules for everywhere, then for pools, then for nodes;
      by target; for everyone, then groups, then users; by name; for each
      before for all together. */
  lemma RuleOrderMeans(a: QuotaRule, b: QuotaRule)
    ensures a.scope == Anywhere && b.scope in {InPool, OnNode} ==> RuleLess(a, b)
    ensures a.scope == InPool && b.scope == OnNode ==> RuleLess(a, b)
    ensures a.scope == b.scope && Less(a.target, b.target) ==> RuleLess(a, b)
    ensures a.ScopeOf() == b.ScopeOf() && a.subject == Everyone && b.subject in {OneGroup, OneUser} ==> RuleLess(a, b)
    ensures a.ScopeOf() == b.ScopeOf() && a.subject == OneGroup && b.subject == OneUser ==> RuleLess(a, b)
    ensures a.ScopeOf() == b.ScopeOf() && a.subject == b.subject && Less(a.name, b.name) ==> RuleLess(a, b)
    ensures a.ScopeOf() == b.ScopeOf() && a.subject == b.subject && a.name == b.name ==> (RuleLess(a, b) <==> b.together && !a.together)
  {
    LessIsIrreflexive(a.target);
    LessIsIrreflexive(a.name);
  }

  /** The order as a stack of simple ones. */
  function RuleLevels(): (QuotaRule, QuotaRule) -> bool {
    Lex(ByRank(ScopeRank), Lex(ByName(TargetOf), Lex(ByRank(SubjectRank), Lex(ByName(RuleName), ByRank(TogetherRank)))))
  }

  lemma NamesCompare(name: QuotaRule -> string, a: QuotaRule, b: QuotaRule)
    ensures ByName(name)(a, b) <==> name(a) == name(b) || Less(name(a), name(b))
    ensures ByName(name)(b, a) <==> name(a) == name(b) || Less(name(b), name(a))
  {
    LessIsIrreflexive(name(a));
    LessIsTotal(name(a), name(b));
    if Less(name(a), name(b)) { LessIsAsymmetric(name(a), name(b)); }
    if Less(name(b), name(a)) { LessIsAsymmetric(name(b), name(a)); }
  }

  lemma RuleOrderHasLevels(a: QuotaRule, b: QuotaRule)
    ensures RuleOrder()(a, b) <==> RuleLevels()(a, b)
  {
    NamesCompare(RuleName, a, b);
    NamesCompare(TargetOf, a, b);
    var byName := Lex(ByName(RuleName), ByRank(TogetherRank));
    var bySubject := Lex(ByRank(SubjectRank), byName);
    var byTarget := Lex(ByName(TargetOf), bySubject);
    assert byName(a, b) <==> if a.name == b.name then TogetherRank(a) <= TogetherRank(b) else Less(a.name, b.name);
    assert bySubject(a, b) <==> if SubjectRank(a) == SubjectRank(b) then byName(a, b) else SubjectRank(a) < SubjectRank(b);
    assert byTarget(a, b) <==> if a.target == b.target then bySubject(a, b) else Less(a.target, b.target);
    assert RuleLevels()(a, b) <==> if ScopeRank(a) == ScopeRank(b) then byTarget(a, b) else ScopeRank(a) < ScopeRank(b);
    LessIsTotal(a.target, b.target);
    LessIsTotal(a.name, b.name);
  }

  lemma RuleLevelsAreTotal()
    ensures TotalPreorder(RuleLevels())
  {
    ByRankIsTotal(TogetherRank);
    ByNameIsTotal(RuleName);
    LexIsTotal(ByName(RuleName), ByRank(TogetherRank));
    ByRankIsTotal(SubjectRank);
    LexIsTotal(ByRank(SubjectRank), Lex(ByName(RuleName), ByRank(TogetherRank)));
    ByNameIsTotal(TargetOf);
    LexIsTotal(ByName(TargetOf), Lex(ByRank(SubjectRank), Lex(ByName(RuleName), ByRank(TogetherRank))));
    ByRankIsTotal(ScopeRank);
    LexIsTotal(ByRank(ScopeRank), Lex(ByName(TargetOf), Lex(ByRank(SubjectRank), Lex(ByName(RuleName), ByRank(TogetherRank)))));
  }

  /** sortRules compares by a strict weak order: not-after is total and transitive. */
  lemma RuleOrderIsTotal()
    ensures TotalPreorder(RuleOrder())
  {
    var le, levels := RuleOrder(), RuleLevels();
    RuleLevelsAreTotal();
    forall a, b ensures le(a, b) <==> levels(a, b) {
      RuleOrderHasLevels(a, b);
    }
    forall a, b ensures le(a, b) || le(b, a) {
      assert levels(a, b) || levels(b, a);
    }
    forall a, b, c | le(a, b) && le(b, c) ensures le(a, c) {
      assert levels(a, b) && levels(b, c) && levels(a, c);
    }
  }

  /** Among well-shaped rules it leaves only equal identities unordered. */
  lemma RuleOrderIsStrict(a: QuotaRule, b: QuotaRule)
    requires a.ValidShape() && b.ValidShape()
    ensures RuleLess(a, b) || RuleLess(b, a) || Identity(a) == Identity(b)
  {
    LessIsTotal(a.target, b.target);
    LessIsTotal(a.name, b.name);
  }

  lemma RulesOrdered(rules: seq<QuotaRule>)
    requires UniqueBy(rules, Key) && forall r <- rules :: r.ValidShape()
    ensures Antisymmetric(rules, RuleOrder())
  {
    forall x, y | x in rules && y in rules && RuleOrder()(x, y) && RuleOrder()(y, x) ensures x == y {
      RuleOrderIsStrict(x, y);
      assert Key(Identity(x)) == Key(x) && Key(Identity(y)) == Key(y);
      KeysIdentify(rules, Key, x, y);
    }
  }

  // ---------------------------------------------------------- canonical form

  function StringOrder(): (string, string) -> bool {
    (a, b) => AtMost(a, b)
  }

  lemma StringOrderIsTotal()
    ensures TotalPreorder(StringOrder())
  {
    forall a, b ensures StringOrder()(a, b) || StringOrder()(b, a) {
      if Less(b, a) {
        LessIsAsymmetric(b, a);
      }
    }
    forall a, b, c | StringOrder()(a, b) && StringOrder()(b, c) ensures StringOrder()(a, c) {
      AtMostIsTransitive(a, b, c);
    }
  }

  function InsertSorted(s: seq<string>, x: string): seq<string> {
    if s == [] then [x]
    else if AtMost(x, s[0]) then [x] + s
    else [s[0]] + InsertSorted(s[1..], x)
  }

  function SortStrings(s: seq<string>): seq<string> {
    if s == [] then [] else InsertSorted(SortStrings(s[..|s| - 1]), s[|s| - 1])
  }

  lemma {:induction false} InsertAdds(s: seq<string>, x: string)
    ensures multiset(InsertSorted(s, x)) == multiset(s) + multiset{x}
    ensures forall y :: y in InsertSorted(s, x) <==> y in s || y == x
  {
    if s != [] {
      assert s == [s[0]] + s[1..];
      InsertAdds(s[1..], x);
    }
  }

  lemma {:induction false} InsertKeepsSorted(s: seq<string>, x: string)
    requires SortedBy(s, StringOrder())
    ensures SortedBy(InsertSorted(s, x), StringOrder())
  {
    if s != [] {
      assert forall i | 0 < i < |s| :: StringOrder()(s[0], s[i]);
      if AtMost(x, s[0]) {
        forall i | 0 <= i < |s| ensures AtMost(x, s[i]) {
          if i > 0 { AtMostIsTransitive(x, s[0], s[i]); }
        }
      } else {
        InsertKeepsSorted(s[1..], x);
        InsertAdds(s[1..], x);
        LessIsAsymmetric(s[0], x);
        HeadStaysLeast(s, InsertSorted(s[1..], x), x);
      }
    }
  }

  lemma HeadStaysLeast(s: seq<string>, tail: seq<string>, x: string)
    requires s != [] && SortedBy(s, StringOrder()) && AtMost(s[0], x)
    requires SortedBy(tail, StringOrder()) && forall y <- tail :: y in s[1..] || y == x
    ensures SortedBy([s[0]] + tail, StringOrder())
  {
    forall y <- tail ensures StringOrder()(s[0], y) {
      if y != x {
        var i :| 0 <= i < |s| - 1 && s[1..][i] == y;
        assert StringOrder()(s[0], s[i + 1]);
      }
    }
  }

  lemma {:induction false} SortStringsSorts(s: seq<string>)
    ensures SortedBy(SortStrings(s), StringOrder())
    ensures multiset(SortStrings(s)) == multiset(s)
  {
    if s != [] {
      SortStringsSorts(s[..|s| - 1]);
      InsertKeepsSorted(SortStrings(s[..|s| - 1]), s[|s| - 1]);
      InsertAdds(SortStrings(s[..|s| - 1]), s[|s| - 1]);
      assert s == s[..|s| - 1] + [s[|s| - 1]];
    }
  }

  lemma StringsOrdered(s: seq<string>)
    ensures Antisymmetric(s, StringOrder())
  {
    forall x, y | StringOrder()(x, y) && StringOrder()(y, x) ensures x == y {
      LessIsTotal(x, y);
    }
  }

  /** Any sorted arrangement of the strings is this one. */
  lemma SortedStringsAgree(s: seq<string>, t: seq<string>)
    requires multiset(s) == multiset(t) && SortedBy(t, StringOrder())
    ensures t == SortStrings(s)
  {
    SortStringsSorts(s);
    StringOrderIsTotal();
    StringsOrdered(SortStrings(s));
    SortedArrangementsAgree(SortStrings(s), t, StringOrder());
  }

  /** Two lists sort alike exactly when they hold the same strings. */
  lemma SortedAlike(s: seq<string>, t: seq<string>)
    ensures SortStrings(s) == SortStrings(t) <==> multiset(s) == multiset(t)
  {
    SortStringsSorts(s);
    SortStringsSorts(t);
    if multiset(s) == multiset(t) {
      SortedStringsAgree(t, SortStrings(s));
    }
  }

  /** The user with their groups sorted. */
  function Tidied(u: User): User {
    u.(groups := SortStrings(u.groups))
  }

  /** d is c in canonical form: sets sorted, pools and spans as authored. */
  ghost predicate IsClone(c: Catalog, d: Catalog) {
    && d.pools == c.pools
    && multiset(d.nodes) == multiset(c.nodes) && SortedBy(d.nodes, ByName(NameOfNode))
    && multiset(d.groups) == multiset(c.groups) && SortedBy(d.groups, ByName(NameOfGroup))
    && multiset(d.users) == multiset(Mapped(c.users, Tidied)) && SortedBy(d.users, ByName(NameOfUser))
    && multiset(d.quotas) == multiset(c.quotas) && SortedBy(d.quotas, RuleOrder())
  }

  method Clone(c: Catalog) returns (d: Catalog)
    ensures IsClone(c, d)
  {
    var users := SortUsers(c.users);
    ByNameIsTotal(NameOfGroup);
    var groups := Sort(c.groups, ByName(NameOfGroup));
    ByNameIsTotal(NameOfNode);
    var nodes := Sort(c.nodes, ByName(NameOfNode));
    RuleOrderIsTotal();
    var quotas := Sort(c.quotas, RuleOrder());
    d := Catalog(c.pools, nodes, groups, users, quotas);
  }

  method SortUsers(unsorted: seq<User>) returns (users: seq<User>)
    ensures multiset(users) == multiset(Mapped(unsorted, Tidied)) && SortedBy(users, ByName(NameOfUser))
  {
    ByNameIsTotal(NameOfUser);
    var sorted := Sort(unsorted, ByName(NameOfUser));
    users := SortMemberships(sorted);
    MappedPermutes(unsorted, sorted, Tidied);
    TidiedStaySorted(sorted);
  }

  lemma TidiedStaySorted(sorted: seq<User>)
    requires SortedBy(sorted, ByName(NameOfUser))
    ensures SortedBy(Mapped(sorted, Tidied), ByName(NameOfUser))
  {
    forall i, j | 0 <= i < j < |sorted| ensures ByName(NameOfUser)(Tidied(sorted[i]), Tidied(sorted[j])) {
      assert ByName(NameOfUser)(sorted[i], sorted[j]);
      assert NameOfUser(Tidied(sorted[i])) == NameOfUser(sorted[i]) && NameOfUser(Tidied(sorted[j])) == NameOfUser(sorted[j]);
    }
  }

  method SortMemberships(sorted: seq<User>) returns (users: seq<User>)
    ensures users == Mapped(sorted, Tidied)
  {
    hide Mapped;
    users := sorted;
    NothingMapped(sorted, Tidied);
    for i := 0 to |sorted|
      invariant users == Mapped(sorted[..i], Tidied) + sorted[i..] && |users| == |sorted|
    {
      MappedNext(sorted, Tidied, i);
      var gs := SortGroups(users[i].groups);
      users := users[i := users[i].(groups := gs)];
    }
    assert sorted[..|sorted|] == sorted && sorted[|sorted|..] == [];
  }

  method SortGroups(gs: seq<string>) returns (sorted: seq<string>)
    ensures sorted == SortStrings(gs)
  {
    StringOrderIsTotal();
    sorted := Sort(gs, StringOrder());
    SortedStringsAgree(gs, sorted);
  }

  // ---------------------------------------------------------------- equality

  /** Nodes, groups, users and rules each named once, and rules well shaped. */
  ghost predicate Tidy(c: Catalog) {
    && UniqueBy(c.nodes, NameOfNode)
    && UniqueBy(c.groups, NameOfGroup)
    && UniqueBy(c.users, NameOfUser)
    && UniqueBy(c.quotas, Key) && (forall r <- c.quotas :: r.ValidShape())
  }

  /** The same pools in the same order, and, in any order, the same nodes,
      groups, users with their memberships, and rules. */
  ghost predicate SameCatalog(a: Catalog, b: Catalog) {
    && a.pools == b.pools
    && multiset(a.nodes) == multiset(b.nodes)
    && multiset(a.groups) == multiset(b.groups)
    && multiset(Mapped(a.users, Tidied)) == multiset(Mapped(b.users, Tidied))
    && multiset(a.quotas) == multiset(b.quotas)
  }

  lemma TidyClone(c: Catalog, d: Catalog)
    requires Tidy(c) && IsClone(c, d)
    ensures Antisymmetric(d.nodes, ByName(NameOfNode)) && Antisymmetric(d.groups, ByName(NameOfGroup))
    ensures Antisymmetric(d.users, ByName(NameOfUser)) && Antisymmetric(d.quotas, RuleOrder())
    ensures Tidy(d)
  {
    UniqueByPermutes(c.nodes, d.nodes, NameOfNode);
    UniqueNamesOrder(d.nodes, NameOfNode);
    UniqueByPermutes(c.groups, d.groups, NameOfGroup);
    UniqueNamesOrder(d.groups, NameOfGroup);
    UniqueByPermutes(Mapped(c.users, Tidied), d.users, NameOfUser);
    UniqueNamesOrder(d.users, NameOfUser);
    UniqueByPermutes(c.quotas, d.quotas, Key);
    SameElements(c.quotas, d.quotas);
    RulesOrdered(d.quotas);
  }

  /** Clone is a canonical form: tidy catalogs have one clone each, and equal
      clones exactly when they are the same but for the order of their sets. */
  lemma ClonesAgree(a: Catalog, b: Catalog, c: Catalog, d: Catalog)
    requires IsClone(a, c) && IsClone(b, d) && Tidy(a)
    ensures c == d <==> SameCatalog(a, b)
  {
    if SameCatalog(a, b) {
      TidyClone(a, c);
      ByNameIsTotal(NameOfNode);
      SortedArrangementsAgree(c.nodes, d.nodes, ByName(NameOfNode));
      ByNameIsTotal(NameOfGroup);
      SortedArrangementsAgree(c.groups, d.groups, ByName(NameOfGroup));
      ByNameIsTotal(NameOfUser);
      SortedArrangementsAgree(c.users, d.users, ByName(NameOfUser));
      RuleOrderIsTotal();
      SortedArrangementsAgree(c.quotas, d.quotas, RuleOrder());
    }
  }

  lemma TidiedTwice(us: seq<User>)
    ensures Mapped(Mapped(us, Tidied), Tidied) == Mapped(us, Tidied)
  {
    forall i | 0 <= i < |us| ensures Tidied(Tidied(us[i])) == Tidied(us[i]) {
      SortStringsSorts(us[i].groups);
      SortedStringsAgree(SortStrings(us[i].groups), SortStrings(us[i].groups));
    }
  }

  lemma CloneIsTheSame(c: Catalog, d: Catalog)
    requires IsClone(c, d)
    ensures SameCatalog(c, d)
  {
    TidiedTwice(c.users);
    MappedPermutes(Mapped(c.users, Tidied), d.users, Tidied);
  }

  /** Cloning a clone gives it back. */
  lemma CloneIsIdempotent(c: Catalog, d: Catalog, e: Catalog)
    requires Tidy(c) && IsClone(c, d) && IsClone(d, e)
    ensures e == d
  {
    CloneIsTheSame(c, d);
    ClonesAgree(c, d, d, e);
  }

  method Equal(a: Catalog, b: Catalog) returns (equal: bool)
    ensures equal ==> SameCatalog(a, b)
    ensures Tidy(a) || Tidy(b) ==> (equal <==> SameCatalog(a, b))
  {
    var c := Clone(a);
    var d := Clone(b);
    equal := c == d;
    if Tidy(a) {
      ClonesAgree(a, b, c, d);
    } else if Tidy(b) {
      ClonesAgree(b, a, d, c);
    }
  }
}
