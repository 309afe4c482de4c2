/** Which edits keep a valid catalog valid: no edit leaves a dangling name. */
module EditSafety {
  import opened Counting
  import opened Catalogs
  import opened RuleKeys
  import opened Validation
  import opened CatalogEdits

  // ------------------------------------------------------------- named lists

  lemma {:induction false} RemovedKeeps<T(!new)>(s: seq<T>, nameOf: T -> string, name: string)
    requires UniqueBy(s, nameOf)
    ensures forall x :: x in Removed(s, nameOf, name) <==> x in s && nameOf(x) != name
    ensures UniqueBy(Removed(s, nameOf, name), nameOf)
  {
    if s != [] {
      assert s == [s[0]] + s[1..];
      assert forall x <- s[1..] :: nameOf(x) != nameOf(s[0]) by {
        forall x <- s[1..] ensures nameOf(x) != nameOf(s[0]) {
          var i :| 0 <= i < |s| - 1 && s[1..][i] == x;
          assert nameOf(s[0]) != nameOf(s[i + 1]);
        }
      }
      if nameOf(s[0]) != name {
        RemovedKeeps(s[1..], nameOf, name);
        UniquePrepend(s[0], Removed(s[1..], nameOf, name), nameOf);
      }
    }
  }

  lemma UniquePrepend<T(!new)>(x: T, s: seq<T>, nameOf: T -> string)
    requires UniqueBy(s, nameOf) && forall y <- s :: nameOf(y) != nameOf(x)
    ensures UniqueBy([x] + s, nameOf)
  {
  }

  lemma {:induction false} PutKeeps<T(!new)>(s: seq<T>, nameOf: T -> string, x: T)
    requires UniqueBy(s, nameOf)
    ensures forall y :: y in Put(s, nameOf, x) <==> y == x || (y in s && nameOf(y) != nameOf(x))
    ensures UniqueBy(Put(s, nameOf, x), nameOf)
  {
    if s != [] {
      assert s == [s[0]] + s[1..];
      assert forall y <- s[1..] :: nameOf(y) != nameOf(s[0]) by {
        forall y <- s[1..] ensures nameOf(y) != nameOf(s[0]) {
          var i :| 0 <= i < |s| - 1 && s[1..][i] == y;
          assert nameOf(s[0]) != nameOf(s[i + 1]);
        }
      }
      if nameOf(s[0]) == nameOf(x) {
        UniquePrepend(x, s[1..], nameOf);
      } else {
        PutKeeps(s[1..], nameOf, x);
        UniquePrepend(s[0], Put(s[1..], nameOf, x), nameOf);
      }
    }
  }

  lemma StillListed<T(!new)>(s: seq<T>, nameOf: T -> string, name: string, other: string)
    requires UniqueBy(s, nameOf)
    ensures Lists(Removed(s, nameOf, name), nameOf, other) <==> other != name && Lists(s, nameOf, other)
  {
    RemovedKeeps(s, nameOf, name);
  }

  lemma ListedOnceMore<T(!new)>(s: seq<T>, nameOf: T -> string, x: T, other: string)
    requires UniqueBy(s, nameOf)
    ensures Lists(Put(s, nameOf, x), nameOf, other) <==> other == nameOf(x) || Lists(s, nameOf, other)
  {
    PutKeeps(s, nameOf, x);
    if Lists(s, nameOf, other) && other != nameOf(x) {
      var y :| y in s && nameOf(y) == other;
      assert y in Put(s, nameOf, x);
    }
    assert x in Put(s, nameOf, x);
  }

  lemma WithoutKeepsDistinct(s: seq<string>, item: string)
    requires Distinct(s)
    ensures Distinct(Without(s, item))
  {
    FilterKeepsUnique(s, IsNot(item), Id);
    assert forall i, j | 0 <= i < j < |Without(s, item)| :: Id(Without(s, item)[i]) != Id(Without(s, item)[j]);
  }

  lemma {:induction false} WithoutStranger(s: seq<string>, item: string)
    requires item !in s
    ensures Without(s, item) == s
  {
    if s != [] {
      WithoutStranger(s[..|s| - 1], item);
    }
  }

  // --------------------------------------------------------------- removals

  /** The rules left after dropping some, in a catalog that still lists what they name. */
  lemma RulesLeft(c: Catalog, c': Catalog, drop: QuotaRule -> bool)
    requires RulesOk(c) && c'.quotas == DropRules(c.quotas, drop)
    requires forall r <- c.quotas | RuleOk(c, r) && !drop(r) :: RuleOk(c', r)
    ensures RulesOk(c')
  {
    FilterKeepsUnique(c.quotas, Not(drop), Key);
  }

  /** Forgetting a node keeps a valid catalog valid. */
  lemma RemoveNodeKeepsValid(c: Catalog, name: string)
    requires Valid(c)
    ensures Valid(WithoutNode(c, name))
  {
    var c' := WithoutNode(c, name);
    RemovedKeeps(c.nodes, NameOfNode, name);
    forall r <- c.quotas | RuleOk(c, r) && !OnTheNode(name)(r) ensures RuleOk(c', r) {
      StillListed(c.nodes, NameOfNode, name, r.target);
    }
    RulesLeft(c, c', OnTheNode(name));
  }

  lemma RemoveUserKeepsValid(c: Catalog, name: string)
    requires Valid(c)
    ensures Valid(WithoutUser(c, name))
  {
    var c' := WithoutUser(c, name);
    RemovedKeeps(c.users, NameOfUser, name);
    forall r <- c.quotas | RuleOk(c, r) && !OfTheUser(name)(r) ensures RuleOk(c', r) {
      StillListed(c.users, NameOfUser, name, r.name);
    }
    RulesLeft(c, c', OfTheUser(name));
  }

  lemma LeftGroupIsOk(c: Catalog, name: string, u: User)
    requires UserOk(c.groups, u) && UniqueBy(c.groups, NameOfGroup)
    ensures UserOk(Removed(c.groups, NameOfGroup, name), LeftGroup(name)(u))
  {
    WithoutKeepsDistinct(u.groups, name);
    forall g <- Without(u.groups, name) ensures Lists(Removed(c.groups, NameOfGroup, name), NameOfGroup, g) {
      StillListed(c.groups, NameOfGroup, name, g);
    }
  }

  lemma RemoveGroupKeepsUsers(c: Catalog, name: string)
    requires Valid(c)
    ensures UsersOk(WithoutGroup(c, name))
    ensures forall user :: Lists(WithoutGroup(c, name).users, NameOfUser, user) <==> Lists(c.users, NameOfUser, user)
  {
    var users := WithoutGroup(c, name).users;
    forall i, j | 0 <= i < j < |users| ensures NameOfUser(users[i]) != NameOfUser(users[j]) {
      assert NameOfUser(c.users[i]) != NameOfUser(c.users[j]);
    }
    forall u <- users ensures UserOk(WithoutGroup(c, name).groups, u) {
      var i :| 0 <= i < |users| && users[i] == u;
      assert UserOk(c.groups, c.users[i]);
      LeftGroupIsOk(c, name, c.users[i]);
    }
    forall user ensures Lists(users, NameOfUser, user) <==> Lists(c.users, NameOfUser, user) {
      SameNamesListed(c.users, users, NameOfUser, user);
    }
  }

  lemma SameNamesListed<T(!new)>(s: seq<T>, t: seq<T>, nameOf: T -> string, name: string)
    requires |s| == |t| && forall i | 0 <= i < |s| :: nameOf(t[i]) == nameOf(s[i])
    ensures Lists(t, nameOf, name) <==> Lists(s, nameOf, name)
  {
    if Lists(s, nameOf, name) {
      var i :| 0 <= i < |s| && nameOf(s[i]) == name;
      assert t[i] in t;
    }
    if Lists(t, nameOf, name) {
      var i :| 0 <= i < |t| && nameOf(t[i]) == name;
      assert s[i] in s;
    }
  }

  lemma RemoveGroupKeepsValid(c: Catalog, name: string)
    requires Valid(c)
    ensures Valid(WithoutGroup(c, name))
  {
    var c' := WithoutGroup(c, name);
    RemovedKeeps(c.groups, NameOfGroup, name);
    RemoveGroupKeepsUsers(c, name);
    forall r <- c.quotas | RuleOk(c, r) && !OfTheGroup(name)(r) ensures RuleOk(c', r) {
      StillListed(c.groups, NameOfGroup, name, r.name);
    }
    RulesLeft(c, c', OfTheGroup(name));
  }

  lemma RemoveRuleKeepsValid(c: Catalog, key: string)
    requires Valid(c)
    ensures Valid(c.(quotas := Removed(c.quotas, Key, key)))
  {
    var c' := c.(quotas := Removed(c.quotas, Key, key));
    RemovedKeeps(c.quotas, Key, key);
    forall r <- c'.quotas ensures RuleOk(c', r) {
      assert RuleOk(c, r);
    }
  }

  // -------------------------------------------------------------- additions

  /** Setting a node keeps a valid catalog valid exactly when the node has a
      name and no pool or a concrete one. */
  lemma SetNodeKeepsValid(c: Catalog, n: Node)
    requires Valid(c)
    ensures Valid(c.(nodes := Put(c.nodes, NameOfNode, n))) <==> n.name != "" && (n.pool == "" || IsConcrete(c.pools, n.pool))
  {
    var c' := c.(nodes := Put(c.nodes, NameOfNode, n));
    PutKeeps(c.nodes, NameOfNode, n);
    forall r <- c.quotas ensures RuleOk(c', r) {
      assert RuleOk(c, r);
      ListedOnceMore(c.nodes, NameOfNode, n, r.target);
    }
    assert n in c'.nodes;
    if NodeOk(c.pools, n) {
      assert Valid(c');
    }
  }

  lemma SetUserKeepsValid(c: Catalog, u: User)
    requires Valid(c)
    ensures Valid(c.(users := Put(c.users, NameOfUser, u))) <==> UserOk(c.groups, u)
  {
    var c' := c.(users := Put(c.users, NameOfUser, u));
    PutKeeps(c.users, NameOfUser, u);
    forall r <- c.quotas ensures RuleOk(c', r) {
      assert RuleOk(c, r);
      ListedOnceMore(c.users, NameOfUser, u, r.name);
    }
    assert u in c'.users;
  }

  lemma SetGroupKeepsValid(c: Catalog, g: Group)
    requires Valid(c)
    ensures Valid(c.(groups := Put(c.groups, NameOfGroup, g))) <==> g.name != ""
  {
    var c' := c.(groups := Put(c.groups, NameOfGroup, g));
    PutKeeps(c.groups, NameOfGroup, g);
    forall name ensures Lists(c'.groups, NameOfGroup, name) <==> name == g.name || Lists(c.groups, NameOfGroup, name) {
      ListedOnceMore(c.groups, NameOfGroup, g, name);
    }
    forall u <- c.users ensures UserOk(c'.groups, u) {
      assert UserOk(c.groups, u);
    }
    forall r <- c.quotas ensures RuleOk(c', r) {
      assert RuleOk(c, r);
    }
    assert g in c'.groups;
  }

  lemma SetRuleKeepsValid(c: Catalog, r: QuotaRule)
    requires Valid(c)
    ensures Valid(c.(quotas := Put(c.quotas, Key, r))) <==> RuleOk(c, r)
  {
    var c' := c.(quotas := Put(c.quotas, Key, r));
    PutKeeps(c.quotas, Key, r);
    forall q ensures RuleOk(c', q) <==> RuleOk(c, q) {
    }
    assert r in c'.quotas;
  }
}
