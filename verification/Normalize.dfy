/** Normalize, check by check. */
module Normalizing {
  import opened Wrappers
  import opened Counting
  import opened Catalogs
  import opened RuleKeys
  import opened Canonical
  import opened Validation
  import opened Settings

  /** Validate a catalog and return a copy in canonical form with defaults
      filled in and virtual pools inheriting; the catalog itself is left alone. */
  method Normalize(c: Catalog) returns (n: Option<Catalog>)
    ensures n.Some? <==> Valid(c)
    ensures n.Some? <==> Sound(c)
    ensures n.Some? ==> exists d :: IsClone(c, d) && n.value == Complete(d)
    ensures n.Some? ==> |n.value.pools| == |c.pools| && forall i | 0 <= i < |c.pools| :: FilledIn(c.pools, c.pools[i], n.value.pools[i])
    ensures n.Some? ==> forall q <- n.value.pools, m <- n.value.pools | m.name in q.spans :: CanStandIn(m, q)
    ensures n.Some? ==> SameCatalog(c, n.value.(pools := c.pools))
  {
    hide FilledIn;
    hide CanStandIn;
    hide SameCatalog;
    hide IsClone;
    hide Sound;
    SoundMeansValid(c);
    var d := Clone(c);
    CloneIsAsValid(c, d);
    CloneKeepsPools(c, d);
    var pools := CompletePools(d.pools);
    if pools.None? {
      return None;
    }
    var nodesOk := CheckNodes(pools.value, d.nodes);
    if !nodesOk {
      CompletedNodes(d);
      return None;
    }
    var agree := CheckAllAgree(d.pools, pools.value);
    if !agree {
      return None;
    }
    var rulesOk := ValidateQuotas(d.(pools := pools.value));
    CompletedNodes(d);
    CompletedRules(d);
    if !rulesOk {
      return None;
    }
    PoolsAreFilledIn(c.pools);
    MembersStandIn(c.pools);
    CloneIsTheSame(c, d);
    return Some(d.(pools := pools.value));
  }

  /** What validation asks of pools before their members are compared. */
  ghost predicate PoolsStand(ps: seq<Pool>) {
    UniqueBy(ps, NameOfPool) && forall p <- ps :: p.name != "" && SpansOk(ps, p) && ValidRuntime(Inherited(ps, p).runtime)
  }

  method CompletePools(ps: seq<Pool>) returns (pools: Option<seq<Pool>>)
    ensures pools.Some? <==> PoolsStand(ps)
    ensures pools.Some? ==> pools.value == CompletedAll(ps)
  {
    var named := CheckPoolNames(ps);
    if !named {
      return None;
    }
    var inherited := InheritPools(ps);
    if inherited.None? {
      return None;
    }
    pools := FillDefaults(ps, inherited.value);
  }

  /** Check the runtimes and fill in the defaults of pools that have inherited. */
  method FillDefaults(ghost ps: seq<Pool>, inherited: seq<Pool>) returns (pools: Option<seq<Pool>>)
    requires inherited == InheritedAll(ps)
    ensures pools.Some? <==> forall p <- ps :: ValidRuntime(Inherited(ps, p).runtime)
    ensures pools.Some? ==> pools.value == CompletedAll(ps)
  {
    hide Inherited;
    hide ValidRuntime;
    var done := inherited;
    for i := 0 to |inherited|
      invariant |done| == |ps| == |inherited|
      invariant forall j | 0 <= j < i :: done[j] == Completed(ps, ps[j])
      invariant forall j | i <= j < |ps| :: done[j] == Inherited(ps, ps[j])
      invariant forall j | 0 <= j < i :: ValidRuntime(Inherited(ps, ps[j]).runtime)
    {
      if !ValidRuntime(done[i].runtime) {
        assert ps[i] in ps;
        return None;
      }
      if done[i].cacheDir == "" {
        done := done[i := done[i].(cacheDir := DEFAULT_CACHE)];
      }
    }
    assert done == CompletedAll(ps);
    return Some(done);
  }

  method CheckPoolNames(ps: seq<Pool>) returns (ok: bool)
    ensures ok <==> UniqueBy(ps, NameOfPool) && forall p <- ps :: p.name != ""
  {
    var names := {};
    for i := 0 to |ps|
      invariant forall name :: name in names <==> exists j :: 0 <= j < i && NameOfPool(ps[j]) == name
      invariant UniqueBy(ps[..i], NameOfPool) && forall j | 0 <= j < i :: ps[j].name != ""
    {
      if ps[i].name == "" {
        assert ps[i] in ps;
        return false;
      }
      if ps[i].name in names {
        var j :| 0 <= j < i && NameOfPool(ps[j]) == ps[i].name;
        assert NameOfPool(ps[j]) == NameOfPool(ps[i]);
        return false;
      }
      assert NameOfPool(ps[i]) !in names;
      names := names + {ps[i].name};
    }
    assert ps[..|ps|] == ps;
    return true;
  }

  /** The pools while the first i have inherited. */
  function Partly(ps: seq<Pool>, i: nat): seq<Pool> {
    seq(|ps|, j requires 0 <= j < |ps| => if j < i then Inherited(ps, ps[j]) else ps[j])
  }

  lemma PartlyFinds(ps: seq<Pool>, i: nat, name: string)
    ensures FindPool(Partly(ps, i), name).Some? <==> FindPool(ps, name).Some?
    ensures IsConcrete(Partly(ps, i), name) <==> IsConcrete(ps, name)
    ensures IsConcrete(ps, name) ==> FindPool(Partly(ps, i), name) == FindPool(ps, name)
  {
    FindInUpdated(ps, Partly(ps, i), name);
  }

  lemma PartlySpans(ps: seq<Pool>, i: nat, p: Pool)
    ensures SpansOk(Partly(ps, i), p) <==> SpansOk(ps, p)
  {
    forall m { PartlyFinds(ps, i, m); }
  }

  method InheritPools(ps: seq<Pool>) returns (pools: Option<seq<Pool>>)
    ensures pools.Some? <==> forall p <- ps :: SpansOk(ps, p)
    ensures pools.Some? ==> pools.value == InheritedAll(ps)
  {
    var n := ps;
    assert Partly(ps, 0) == ps;
    for i := 0 to |ps|
      invariant n == Partly(ps, i)
      invariant forall j | 0 <= j < i :: SpansOk(ps, ps[j])
    {
      assert n[i] == ps[i];
      PartlySpans(ps, i, ps[i]);
      if n[i].IsVirtual() {
        var ok := CheckSpans(n, n[i]);
        if !ok {
          assert ps[i] in ps;
          return None;
        }
        assert ps[i].spans[0] in ps[i].spans;
        PartlyFinds(ps, i, ps[i].spans[0]);
        n := n[i := Inherit(n[i], FindPool(n, n[i].spans[0]).value)];
      }
      assert n == Partly(ps, i + 1);
    }
    assert Partly(ps, |ps|) == InheritedAll(ps);
    return Some(n);
  }

  /** Validate the member list of a virtual pool. */
  method CheckSpans(pools: seq<Pool>, p: Pool) returns (ok: bool)
    ensures ok <==> SpansOk(pools, p)
  {
    var seen := {};
    for i := 0 to |p.spans|
      invariant forall name :: name in seen <==> name in p.spans[..i]
      invariant Distinct(p.spans[..i]) && forall j | 0 <= j < i :: IsConcrete(pools, p.spans[j])
    {
      var name := p.spans[i];
      var m := FindPool(pools, name);
      if m.None? || m.value.IsVirtual() {
        assert name in p.spans;
        return false;
      }
      if name in seen {
        return false;
      }
      seen := seen + {name};
    }
    assert p.spans[..|p.spans|] == p.spans;
    return true;
  }

  method CheckNodes(pools: seq<Pool>, nodes: seq<Node>) returns (ok: bool)
    ensures ok <==> UniqueBy(nodes, NameOfNode) && forall n <- nodes :: NodeOk(pools, n)
  {
    var seen := {};
    for i := 0 to |nodes|
      invariant forall name :: name in seen <==> exists j :: 0 <= j < i && NameOfNode(nodes[j]) == name
      invariant UniqueBy(nodes[..i], NameOfNode) && forall j | 0 <= j < i :: NodeOk(pools, nodes[j])
    {
      var nd := nodes[i];
      assert nd in nodes;
      if nd.name == "" {
        return false;
      }
      if nd.name in seen {
        var j :| 0 <= j < i && NameOfNode(nodes[j]) == nd.name;
        assert NameOfNode(nodes[j]) == NameOfNode(nodes[i]);
        return false;
      }
      assert NameOfNode(nd) !in seen;
      seen := seen + {nd.name};
      if nd.pool != "" {
        var p := FindPool(pools, nd.pool);
        if p.None? || p.value.IsVirtual() {
          return false;
        }
      }
      assert NodeOk(pools, nodes[i]);
    }
    assert nodes[..|nodes|] == nodes;
    return true;
  }

  lemma CompletedNodes(d: Catalog)
    ensures (UniqueBy(d.nodes, NameOfNode) && forall n <- d.nodes :: NodeOk(CompletedAll(d.pools), n)) <==> NodesOk(d)
  {
    forall n <- d.nodes ensures NodeOk(CompletedAll(d.pools), n) <==> NodeOk(d.pools, n) {
      FindCompleted(d.pools, n.pool);
    }
  }

  method CheckAllAgree(ghost ps: seq<Pool>, pools: seq<Pool>) returns (ok: bool)
    requires PoolsStand(ps) && pools == CompletedAll(ps)
    ensures ok <==> PoolsOk(ps)
  {
    hide MembersAgree;
    hide SpansOk;
    hide Completed;
    hide Inherited;
    for i := 0 to |pools|
      invariant forall j | 0 <= j < i :: MembersAgree(ps, ps[j])
    {
      assert ps[i] in ps;
      CompletedSpans(ps, ps[i]);
      if pools[i].IsVirtual() {
        var agree := CheckMembersAgree(ps, ps[i], pools, pools[i]);
        if !agree {
          assert !PoolOk(ps, ps[i]);
          return false;
        }
      }
      NoneDisagrees(ps, ps[i]);
      assert MembersAgree(ps, ps[i]);
    }
    return true;
  }

  lemma AgreeCompleted(ps: seq<Pool>, q: Pool, i: nat)
    requires SpansOk(ps, q) && i < |q.spans|
    ensures FindPool(CompletedAll(ps), q.spans[i]).Some?
    ensures Agree(FindPool(CompletedAll(ps), q.spans[i]).value, Completed(ps, q)) <==> AgreesWith(ps, q, q.spans[i])
  {
    assert q.spans[i] in q.spans;
    FindCompleted(ps, q.spans[i]);
  }

  lemma CompletedSpans(ps: seq<Pool>, q: Pool)
    ensures Completed(ps, q).spans == q.spans
  {
  }

  lemma AllAgree(ps: seq<Pool>, q: Pool)
    requires forall j | 0 <= j < |q.spans| :: AgreesWith(ps, q, q.spans[j])
    ensures MembersAgree(ps, q)
  {
  }

  lemma NoneDisagrees(ps: seq<Pool>, p: Pool)
    ensures p.spans == [] ==> MembersAgree(ps, p)
  {
  }

  lemma OneDisagrees(ps: seq<Pool>, q: Pool, i: nat)
    requires i < |q.spans| && !AgreesWith(ps, q, q.spans[i])
    ensures !MembersAgree(ps, q)
  {
    assert q.spans[i] in q.spans;
  }

  /** Every member must use the runtime and the driver of the pool. */
  method CheckMembersAgree(ghost ps: seq<Pool>, ghost q: Pool, pools: seq<Pool>, p: Pool) returns (ok: bool)
    requires SpansOk(ps, q) && pools == CompletedAll(ps) && p == Completed(ps, q)
    ensures ok <==> MembersAgree(ps, q)
  {
    hide Agree;
    hide MembersAgree;
    hide SpansOk;
    hide FindPool;
    hide Completed;
    hide CompletedAll;
    hide AgreesWith;
    CompletedSpans(ps, q);
    for i := 0 to |p.spans|
      invariant forall j | 0 <= j < i :: AgreesWith(ps, q, q.spans[j])
    {
      AgreeCompleted(ps, q, i);
      var m := FindPool(pools, p.spans[i]).value;
      if !Agree(m, p) {
        OneDisagrees(ps, q, i);
        return false;
      }
    }
    AllAgree(ps, q);
    return true;
  }

  lemma CompletedRules(d: Catalog)
    ensures RulesOk(d.(pools := CompletedAll(d.pools))) <==> RulesOk(d)
  {
    var e := d.(pools := CompletedAll(d.pools));
    forall r <- d.quotas ensures RuleOk(e, r) <==> RuleOk(d, r) {
      FindCompleted(d.pools, r.target);
    }
  }

  /** Check groups, users and rules against each other and the pools and nodes. */
  method ValidateQuotas(c: Catalog) returns (ok: bool)
    ensures ok <==> GroupsOk(c) && UsersOk(c) && RulesOk(c)
  {
    var groups := CheckGroups(c);
    if groups.None? {
      return false;
    }
    var users := CheckUsers(c, groups.value);
    if users.None? {
      return false;
    }
    var nodes := {};
    for i := 0 to |c.nodes|
      invariant forall name :: name in nodes <==> exists j :: 0 <= j < i && NameOfNode(c.nodes[j]) == name
    {
      nodes := nodes + {c.nodes[i].name};
    }
    ok := CheckRules(c, groups.value, users.value, nodes);
  }

  method CheckGroups(c: Catalog) returns (groups: Option<set<string>>)
    ensures groups.Some? <==> GroupsOk(c)
    ensures groups.Some? ==> forall name :: name in groups.value <==> Lists(c.groups, NameOfGroup, name)
  {
    var names := {};
    for i := 0 to |c.groups|
      invariant forall name :: name in names <==> exists j :: 0 <= j < i && NameOfGroup(c.groups[j]) == name
      invariant UniqueBy(c.groups[..i], NameOfGroup) && forall j | 0 <= j < i :: c.groups[j].name != ""
    {
      var g := c.groups[i];
      assert g in c.groups;
      if g.name == "" {
        return None;
      }
      if g.name in names {
        var j :| 0 <= j < i && NameOfGroup(c.groups[j]) == g.name;
        assert NameOfGroup(c.groups[j]) == NameOfGroup(c.groups[i]);
        return None;
      }
      assert NameOfGroup(g) !in names;
      names := names + {g.name};
    }
    assert c.groups[..|c.groups|] == c.groups;
    return Some(names);
  }

  method CheckUsers(c: Catalog, groups: set<string>) returns (users: Option<set<string>>)
    requires forall name :: name in groups <==> Lists(c.groups, NameOfGroup, name)
    ensures users.Some? <==> UsersOk(c)
    ensures users.Some? ==> forall name :: name in users.value <==> Lists(c.users, NameOfUser, name)
  {
    var names := {};
    for i := 0 to |c.users|
      invariant forall name :: name in names <==> exists j :: 0 <= j < i && NameOfUser(c.users[j]) == name
      invariant UniqueBy(c.users[..i], NameOfUser) && forall j | 0 <= j < i :: UserOk(c.groups, c.users[j])
    {
      var u := c.users[i];
      assert u in c.users;
      if u.name == "" {
        return None;
      }
      if u.name in names {
        var j :| 0 <= j < i && NameOfUser(c.users[j]) == u.name;
        assert NameOfUser(c.users[j]) == NameOfUser(c.users[i]);
        return None;
      }
      assert NameOfUser(u) !in names;
      names := names + {u.name};
      var ok := CheckMemberships(c.groups, groups, u);
      if !ok {
        return None;
      }
    }
    assert c.users[..|c.users|] == c.users;
    return Some(names);
  }

  method CheckMemberships(ghost listed: seq<Group>, groups: set<string>, u: User) returns (ok: bool)
    requires u.name != "" && forall name :: name in groups <==> Lists(listed, NameOfGroup, name)
    ensures ok <==> UserOk(listed, u)
  {
    var seen := {};
    for i := 0 to |u.groups|
      invariant forall name :: name in seen <==> name in u.groups[..i]
      invariant Distinct(u.groups[..i]) && forall j | 0 <= j < i :: Lists(listed, NameOfGroup, u.groups[j])
    {
      var g := u.groups[i];
      assert g in u.groups;
      if g !in groups || g in seen {
        return false;
      }
      DistinctAppend(u.groups[..i], g);
      assert u.groups[..i + 1] == u.groups[..i] + [g];
      seen := seen + {g};
    }
    assert u.groups[..|u.groups|] == u.groups;
    return true;
  }

  method CheckRules(c: Catalog, groups: set<string>, users: set<string>, nodes: set<string>) returns (ok: bool)
    requires forall name :: name in groups <==> Lists(c.groups, NameOfGroup, name)
    requires forall name :: name in users <==> Lists(c.users, NameOfUser, name)
    requires forall name :: name in nodes <==> Lists(c.nodes, NameOfNode, name)
    ensures ok <==> RulesOk(c)
  {
    hide Key;
    hide RuleOk;
    var keys := {};
    for i := 0 to |c.quotas|
      invariant forall key :: key in keys <==> exists j :: 0 <= j < i && Key(c.quotas[j]) == key
      invariant UniqueBy(c.quotas[..i], Key) && forall j | 0 <= j < i :: RuleOk(c, c.quotas[j])
    {
      var r := c.quotas[i];
      assert r in c.quotas;
      var fine := CheckRule(c, groups, users, nodes, r);
      if !fine {
        return false;
      }
      if Key(r) in keys {
        var j :| 0 <= j < i && Key(c.quotas[j]) == Key(r);
        assert Key(c.quotas[j]) == Key(c.quotas[i]);
        return false;
      }
      keys := keys + {Key(r)};
    }
    assert c.quotas[..|c.quotas|] == c.quotas;
    return true;
  }

  method CheckRule(c: Catalog, groups: set<string>, users: set<string>, nodes: set<string>, r: QuotaRule) returns (ok: bool)
    requires forall name :: name in groups <==> Lists(c.groups, NameOfGroup, name)
    requires forall name :: name in users <==> Lists(c.users, NameOfUser, name)
    requires forall name :: name in nodes <==> Lists(c.nodes, NameOfNode, name)
    ensures ok <==> RuleOk(c, r)
  {
    if !r.ValidShape() {
      return false;
    }
    match r.subject {
      case OneUser => if r.name !in users { return false; }
      case OneGroup => if r.name !in groups { return false; }
      case _ =>
    }
    match r.scope {
      case InPool => if FindPool(c.pools, r.target).None? { return false; }
      case OnNode => if r.target !in nodes { return false; }
      case _ =>
    }
    return true;
  }
}
