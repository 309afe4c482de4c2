/** Editing a catalog in place, and which edits keep it valid. */
module CatalogEdits {
  import opened Counting
  import opened Catalogs
  import opened RuleKeys
  import opened Validation

  // ------------------------------------------------------------- named lists

  /** The list with x in place of the element of its name, or added to it. */
  function Put<T>(s: seq<T>, nameOf: T -> string, x: T): seq<T> {
    if s == [] then [x]
    else if nameOf(s[0]) == nameOf(x) then [x] + s[1..]
    else [s[0]] + Put(s[1..], nameOf, x)
  }

  /** The list without the first element of that name. */
  function Removed<T>(s: seq<T>, nameOf: T -> string, name: string): seq<T> {
    if s == [] then []
    else if nameOf(s[0]) == name then s[1..]
    else [s[0]] + Removed(s[1..], nameOf, name)
  }

  /** The list without an item. */
  function Without(s: seq<string>, item: string): seq<string> {
    Filter(s, IsNot(item))
  }

  function IsNot(item: string): string -> bool {
    x => x != item
  }

  // ------------------------------------------------------------------- edits

  function OnTheNode(name: string): QuotaRule -> bool {
    (r: QuotaRule) => r.scope.OnNode? && r.target == name
  }

  function InThePool(name: string): QuotaRule -> bool {
    (r: QuotaRule) => r.scope.InPool? && r.target == name
  }

  function OfTheUser(name: string): QuotaRule -> bool {
    (r: QuotaRule) => r.subject.OneUser? && r.name == name
  }

  function OfTheGroup(name: string): QuotaRule -> bool {
    (r: QuotaRule) => r.subject.OneGroup? && r.name == name
  }

  function DropRules(rules: seq<QuotaRule>, drop: QuotaRule -> bool): seq<QuotaRule> {
    Filter(rules, Not(drop))
  }

  function Not<T>(p: T -> bool): T -> bool {
    x => !p(x)
  }

  function LeftPool(name: string): Node -> Node {
    (n: Node) => if n.pool == name then n.(pool := "") else n
  }

  function NotSpanning(name: string): Pool -> Pool {
    (p: Pool) => p.(spans := Without(p.spans, name))
  }

  function LeftGroup(name: string): User -> User {
    (u: User) => u.(groups := Without(u.groups, name))
  }

  function WithoutNode(c: Catalog, name: string): Catalog {
    c.(nodes := Removed(c.nodes, NameOfNode, name), quotas := DropRules(c.quotas, OnTheNode(name)))
  }

  function WithoutUser(c: Catalog, name: string): Catalog {
    c.(users := Removed(c.users, NameOfUser, name), quotas := DropRules(c.quotas, OfTheUser(name)))
  }

  /** Without the pool: its nodes unassigned, and gone from spans and from rules. */
  function WithoutPool(c: Catalog, name: string): Catalog {
    c.(pools := Mapped(Removed(c.pools, NameOfPool, name), NotSpanning(name)),
       nodes := Mapped(c.nodes, LeftPool(name)),
       quotas := DropRules(c.quotas, InThePool(name)))
  }

  function WithoutGroup(c: Catalog, name: string): Catalog {
    c.(groups := Removed(c.groups, NameOfGroup, name),
       users := Mapped(c.users, LeftGroup(name)),
       quotas := DropRules(c.quotas, OfTheGroup(name)))
  }

  // ------------------------------------------------ what a removal leaves

  /** The first element of that name is gone, and nothing else. */
  ghost predicate LosesFirst<T(!new)>(s: seq<T>, t: seq<T>, nameOf: T -> string, name: string) {
    exists i: nat | i < |s| :: nameOf(s[i]) == name && (forall j | 0 <= j < i :: nameOf(s[j]) != name) && t == s[..i] + s[i + 1..]
  }

  lemma {:induction false} RemovedLosesFirst<T(!new)>(s: seq<T>, nameOf: T -> string, name: string, i: nat)
    requires i < |s| && nameOf(s[i]) == name
    ensures LosesFirst(s, Removed(s, nameOf, name), nameOf, name)
  {
    if j: nat :| j < i && nameOf(s[j]) == name {
      RemovedLosesFirst(s, nameOf, name, j);
    } else {
      RemovedAt(s, nameOf, name, i);
    }
  }

  lemma RulesLeave(rules: seq<QuotaRule>, drop: QuotaRule -> bool, gone: QuotaRule -> bool)
    requires forall r :: gone(r) <==> drop(r)
    ensures Leaves(rules, DropRules(rules, drop), gone)
  {
    FilterLeaves(rules, Not(drop), gone);
  }

  /** Of the rules, those on the node go; all else but the node stays. */
  lemma NodeLeaves(c: Catalog, name: string, i: nat)
    requires i < |c.nodes| && c.nodes[i].name == name
    ensures var d := WithoutNode(c, name);
      && LosesFirst(c.nodes, d.nodes, NameOfNode, name)
      && Leaves(c.quotas, d.quotas, (r: QuotaRule) => r.scope == OnNode && r.target == name)
      && d.pools == c.pools && d.groups == c.groups && d.users == c.users
  {
    assert NameOfNode(c.nodes[i]) == name;
    RemovedLosesFirst(c.nodes, NameOfNode, name, i);
    RulesLeave(c.quotas, OnTheNode(name), (r: QuotaRule) => r.scope == OnNode && r.target == name);
  }

  /** The user's own rules go; all else but the user stays. */
  lemma UserLeaves(c: Catalog, name: string, i: nat)
    requires i < |c.users| && c.users[i].name == name
    ensures var d := WithoutUser(c, name);
      && LosesFirst(c.users, d.users, NameOfUser, name)
      && Leaves(c.quotas, d.quotas, (r: QuotaRule) => r.subject == OneUser && r.name == name)
      && d.pools == c.pools && d.nodes == c.nodes && d.groups == c.groups
  {
    assert NameOfUser(c.users[i]) == name;
    RemovedLosesFirst(c.users, NameOfUser, name, i);
    RulesLeave(c.quotas, OfTheUser(name), (r: QuotaRule) => r.subject == OneUser && r.name == name);
  }

  /** The group's rules go, and every membership in it; all else but the group stays. */
  lemma GroupLeaves(c: Catalog, name: string, i: nat)
    requires i < |c.groups| && c.groups[i].name == name
    ensures var d := WithoutGroup(c, name);
      && LosesFirst(c.groups, d.groups, NameOfGroup, name)
      && Leaves(c.quotas, d.quotas, (r: QuotaRule) => r.subject == OneGroup && r.name == name)
      && d.pools == c.pools && d.nodes == c.nodes && |d.users| == |c.users|
      && forall k | 0 <= k < |c.users| ::
           d.users[k] == c.users[k].(groups := d.users[k].groups) && Leaves(c.users[k].groups, d.users[k].groups, (g: string) => g == name)
  {
    assert NameOfGroup(c.groups[i]) == name;
    RemovedLosesFirst(c.groups, NameOfGroup, name, i);
    RulesLeave(c.quotas, OfTheGroup(name), (r: QuotaRule) => r.subject == OneGroup && r.name == name);
    forall k | 0 <= k < |c.users| ensures Leaves(c.users[k].groups, Without(c.users[k].groups, name), (g: string) => g == name) {
      FilterLeaves(c.users[k].groups, IsNot(name), (g: string) => g == name);
    }
  }

  /** The same pools, with this one taken out of their members. */
  ghost predicate SpanNoMore(before: seq<Pool>, after: seq<Pool>, name: string) {
    && |after| == |before|
    && forall k | 0 <= k < |before| ::
         after[k] == before[k].(spans := after[k].spans) && Leaves(before[k].spans, after[k].spans, (m: string) => m == name)
  }

  /** The rules on the pool go, its nodes are in none, and no pool spans it; all
      else but the pool stays. */
  lemma PoolLeaves(c: Catalog, name: string, i: nat)
    requires i < |c.pools| && c.pools[i].name == name
    ensures var d := WithoutPool(c, name);
      && Leaves(c.quotas, d.quotas, (r: QuotaRule) => r.scope == InPool && r.target == name)
      && d.groups == c.groups && d.users == c.users && |d.nodes| == |c.nodes|
      && (forall k | 0 <= k < |c.nodes| ::
            d.nodes[k].name == c.nodes[k].name && d.nodes[k].pool == if c.nodes[k].pool == name then "" else c.nodes[k].pool)
      && exists rest :: LosesFirst(c.pools, rest, NameOfPool, name) && SpanNoMore(rest, d.pools, name)
  {
    assert NameOfPool(c.pools[i]) == name;
    RemovedLosesFirst(c.pools, NameOfPool, name, i);
    RulesLeave(c.quotas, InThePool(name), (r: QuotaRule) => r.scope == InPool && r.target == name);
    var rest := Removed(c.pools, NameOfPool, name);
    forall k | 0 <= k < |rest| ensures Leaves(rest[k].spans, Without(rest[k].spans, name), (m: string) => m == name) {
      FilterLeaves(rest[k].spans, IsNot(name), (m: string) => m == name);
    }
    assert SpanNoMore(rest, WithoutPool(c, name).pools, name);
  }

  method IndexOf<T>(s: seq<T>, nameOf: T -> string, name: string) returns (i: nat)
    ensures i <= |s| && forall j | 0 <= j < i :: nameOf(s[j]) != name
    ensures i < |s| ==> nameOf(s[i]) == name
  {
    i := 0;
    while i < |s| && nameOf(s[i]) != name
      invariant i <= |s| && forall j | 0 <= j < i :: nameOf(s[j]) != name
    {
      i := i + 1;
    }
  }

  lemma {:induction false} PutAt<T>(s: seq<T>, nameOf: T -> string, x: T, i: nat)
    requires i <= |s| && forall j | 0 <= j < i :: nameOf(s[j]) != nameOf(x)
    requires i < |s| ==> nameOf(s[i]) == nameOf(x)
    ensures Put(s, nameOf, x) == if i < |s| then s[i := x] else s + [x]
  {
    if i > 0 {
      PutAt(s[1..], nameOf, x, i - 1);
    }
  }

  lemma {:induction false} RemovedAt<T>(s: seq<T>, nameOf: T -> string, name: string, i: nat)
    requires i <= |s| && forall j | 0 <= j < i :: nameOf(s[j]) != name
    requires i < |s| ==> nameOf(s[i]) == name
    ensures Removed(s, nameOf, name) == if i < |s| then s[..i] + s[i + 1..] else s
  {
    if i > 0 {
      RemovedAt(s[1..], nameOf, name, i - 1);
    }
  }

  /** A catalog being edited. */
  class EditableCatalog {
    var pools: seq<Pool>
    var nodes: seq<Node>
    var groups: seq<Group>
    var users: seq<User>
    var quotas: seq<QuotaRule>

    ghost function State(): Catalog
      reads this
    {
      Catalog(pools, nodes, groups, users, quotas)
    }

    constructor (c: Catalog)
      ensures State() == c
    {
      pools, nodes, groups, users, quotas := c.pools, c.nodes, c.groups, c.users, c.quotas;
    }

    /** Assign a node to a pool, adding the node when new. */
    method SetNode(n: Node)
      modifies this`nodes
      ensures State() == old(State()).(nodes := Put(old(nodes), NameOfNode, n))
    {
      var i := IndexOf(nodes, NameOfNode, n.name);
      PutAt(nodes, NameOfNode, n, i);
      if i < |nodes| {
        nodes := nodes[i := n];
      } else {
        nodes := nodes + [n];
      }
    }

    method SetUser(u: User)
      modifies this`users
      ensures State() == old(State()).(users := Put(old(users), NameOfUser, u))
    {
      var i := IndexOf(users, NameOfUser, u.name);
      PutAt(users, NameOfUser, u, i);
      if i < |users| {
        users := users[i := u];
      } else {
        users := users + [u];
      }
    }

    method SetGroup(g: Group)
      modifies this`groups
      ensures State() == old(State()).(groups := Put(old(groups), NameOfGroup, g))
    {
      var i := IndexOf(groups, NameOfGroup, g.name);
      PutAt(groups, NameOfGroup, g, i);
      if i < |groups| {
        groups := groups[i := g];
      } else {
        groups := groups + [g];
      }
    }

    /** Add or replace one pool, keeping the authored order. */
    method SetPool(p: Pool)
      modifies this`pools
      ensures State() == old(State()).(pools := Put(old(pools), NameOfPool, p))
    {
      var i := IndexOf(pools, NameOfPool, p.name);
      PutAt(pools, NameOfPool, p, i);
      if i < |pools| {
        pools := pools[i := p];
      } else {
        pools := pools + [p];
      }
    }

    /** Add or replace the rule with r's key. */
    method SetRule(r: QuotaRule)
      modifies this`quotas
      ensures State() == old(State()).(quotas := Put(old(quotas), Key, r))
    {
      var i := IndexOf(quotas, Key, Key(r));
      PutAt(quotas, Key, r, i);
      if i < |quotas| {
        quotas := quotas[i := r];
      } else {
        quotas := quotas + [r];
      }
    }

    /** Forget a node and the rules scoped to it. */
    method RemoveNode(name: string) returns (found: bool)
      modifies this`nodes, this`quotas
      ensures found <==> Lists(old(nodes), NameOfNode, name)
      ensures State() == if found then WithoutNode(old(State()), name) else old(State())
    {
      var i := IndexOf(nodes, NameOfNode, name);
      RemovedAt(nodes, NameOfNode, name, i);
      if i == |nodes| {
        return false;
      }
      assert NameOfNode(nodes[i]) == name;
      nodes := nodes[..i] + nodes[i + 1..];
      Drop(OnTheNode(name));
      return true;
    }

    method RemoveUser(name: string) returns (found: bool)
      modifies this`users, this`quotas
      ensures found <==> Lists(old(users), NameOfUser, name)
      ensures State() == if found then WithoutUser(old(State()), name) else old(State())
    {
      var i := IndexOf(users, NameOfUser, name);
      RemovedAt(users, NameOfUser, name, i);
      if i == |users| {
        return false;
      }
      assert NameOfUser(users[i]) == name;
      users := users[..i] + users[i + 1..];
      Drop(OfTheUser(name));
      return true;
    }

    method RemovePool(name: string) returns (found: bool)
      modifies this`pools, this`nodes, this`quotas
      ensures found <==> Lists(old(pools), NameOfPool, name)
      ensures State() == if found then WithoutPool(old(State()), name) else old(State())
    {
      hide Mapped;
      hide Removed;
      hide DropRules;
      hide LeftPool;
      hide NotSpanning;
      hide InThePool;
      var i := IndexOf(pools, NameOfPool, name);
      RemovedAt(pools, NameOfPool, name, i);
      if i == |pools| {
        return false;
      }
      assert NameOfPool(pools[i]) == name;
      pools := pools[..i] + pools[i + 1..];
      UnassignNodes(name);
      CutSpans(name);
      Drop(InThePool(name));
      return true;
    }

    method UnassignNodes(name: string)
      modifies this`nodes
      ensures nodes == Mapped(old(nodes), LeftPool(name))
    {
      NothingMapped(nodes, LeftPool(name));
      for j := 0 to |nodes|
        invariant |nodes| == |old(nodes)|
        invariant nodes == Mapped(old(nodes)[..j], LeftPool(name)) + old(nodes)[j..]
      {
        MappedNext(old(nodes), LeftPool(name), j);
        if nodes[j].pool == name {
          nodes := nodes[j := nodes[j].(pool := "")];
        }
      }
      assert old(nodes)[..|nodes|] == old(nodes) && old(nodes)[|nodes|..] == [];
    }

    method CutSpans(name: string)
      modifies this`pools
      ensures pools == Mapped(old(pools), NotSpanning(name))
    {
      NothingMapped(pools, NotSpanning(name));
      for j := 0 to |pools|
        invariant |pools| == |old(pools)|
        invariant pools == Mapped(old(pools)[..j], NotSpanning(name)) + old(pools)[j..]
      {
        MappedNext(old(pools), NotSpanning(name), j);
        var spans := Leave(pools[j].spans, name);
        pools := pools[j := pools[j].(spans := spans)];
      }
      assert old(pools)[..|pools|] == old(pools) && old(pools)[|pools|..] == [];
    }

    method RemoveGroup(name: string) returns (found: bool)
      modifies this`groups, this`users, this`quotas
      ensures found <==> Lists(old(groups), NameOfGroup, name)
      ensures State() == if found then WithoutGroup(old(State()), name) else old(State())
    {
      var i := IndexOf(groups, NameOfGroup, name);
      RemovedAt(groups, NameOfGroup, name, i);
      if i == |groups| {
        return false;
      }
      assert NameOfGroup(groups[i]) == name;
      groups := groups[..i] + groups[i + 1..];
      LeaveGroup(name);
      Drop(OfTheGroup(name));
      return true;
    }

    method LeaveGroup(name: string)
      modifies this`users
      ensures users == Mapped(old(users), LeftGroup(name))
    {
      NothingMapped(users, LeftGroup(name));
      for j := 0 to |users|
        invariant |users| == |old(users)|
        invariant users == Mapped(old(users)[..j], LeftGroup(name)) + old(users)[j..]
      {
        MappedNext(old(users), LeftGroup(name), j);
        var groups := Leave(users[j].groups, name);
        users := users[j := users[j].(groups := groups)];
      }
      assert old(users)[..|users|] == old(users) && old(users)[|users|..] == [];
    }

    method RemoveRule(key: string) returns (found: bool)
      modifies this`quotas
      ensures found <==> Lists(old(quotas), Key, key)
      ensures State() == if found then old(State()).(quotas := Removed(old(quotas), Key, key)) else old(State())
    {
      var i := IndexOf(quotas, Key, key);
      RemovedAt(quotas, Key, key, i);
      if i == |quotas| {
        return false;
      }
      assert Key(quotas[i]) == key;
      quotas := quotas[..i] + quotas[i + 1..];
      return true;
    }

    /** Remove every rule the predicate matches. */
    method Drop(match_: QuotaRule -> bool)
      modifies this`quotas
      ensures quotas == DropRules(old(quotas), match_)
    {
      var kept := [];
      for i := 0 to |quotas|
        invariant kept == DropRules(quotas[..i], match_)
      {
        assert quotas[..i + 1][..i] == quotas[..i];
        if !match_(quotas[i]) {
          kept := kept + [quotas[i]];
        }
      }
      assert quotas[..|quotas|] == quotas;
      quotas := kept;
    }
  }

  method Leave(list: seq<string>, item: string) returns (out: seq<string>)
    ensures out == Without(list, item)
  {
    out := [];
    for i := 0 to |list|
      invariant out == Without(list[..i], item)
    {
      assert list[..i + 1][..i] == list[..i];
      if list[i] != item {
        out := out + [list[i]];
      }
    }
    assert list[..|list|] == list;
  }
}
