/** Catalog validation: what Normalize accepts and what it makes of it. */
module Validation {
  import opened Counting
  import opened Sorting
  import opened Catalogs
  import opened RuleKeys
  import opened Canonical

  const DEFAULT_CACHE := "/var/lib/dtp/cache"

  // ----------------------------------------------------------- what is valid

  predicate IsConcrete(pools: seq<Pool>, name: string) {
    FindPool(pools, name).Some? && !FindPool(pools, name).value.IsVirtual()
  }

  /** A virtual pool spans concrete pools, each once. */
  ghost predicate SpansOk(pools: seq<Pool>, p: Pool) {
    Distinct(p.spans) && forall m <- p.spans :: IsConcrete(pools, m)
  }

  /** The settings p left empty, from m. */
  function Inherit(p: Pool, m: Pool): Pool {
    p.(runtime := if p.runtime.Unset? then m.runtime else p.runtime,
       taskDriver := if p.taskDriver == "" then m.taskDriver else p.taskDriver,
       image := if p.image == "" then m.image else p.image,
       command := if p.command == [] then m.command else p.command,
       runnerCommand := if p.runnerCommand == [] then m.runnerCommand else p.runnerCommand,
       dockerNetwork := if p.dockerNetwork == "" then m.dockerNetwork else p.dockerNetwork,
       runnerUrl := if p.runnerUrl == "" then m.runnerUrl else p.runnerUrl,
       cacheDir := if p.cacheDir == "" then m.cacheDir else p.cacheDir,
       hostVolume := if p.hostVolume == "" then m.hostVolume else p.hostVolume)
  }

  /** A virtual pool inherits from its first member. */
  function Inherited(pools: seq<Pool>, p: Pool): Pool {
    if p.IsVirtual() && FindPool(pools, p.spans[0]).Some? then Inherit(p, FindPool(pools, p.spans[0]).value) else p
  }

  function WithDefaults(p: Pool): Pool {
    if p.cacheDir == "" then p.(cacheDir := DEFAULT_CACHE) else p
  }

  function Completed(pools: seq<Pool>, p: Pool): Pool {
    WithDefaults(Inherited(pools, p))
  }

  predicate ValidRuntime(r: Runtime) {
    r.Process? || r.Container?
  }

  /** The pools could run the same job: one runtime and one driver. */
  predicate Agree(m: Pool, p: Pool) {
    m.runtime == p.runtime && m.Driver() == p.Driver()
  }

  predicate AgreesWith(pools: seq<Pool>, p: Pool, member: string) {
    FindPool(pools, member).Some? ==> Agree(FindPool(pools, member).value, Inherited(pools, p))
  }

  ghost predicate MembersAgree(pools: seq<Pool>, p: Pool) {
    forall name <- p.spans :: AgreesWith(pools, p, name)
  }

  ghost predicate PoolOk(pools: seq<Pool>, p: Pool) {
    && p.name != ""
    && SpansOk(pools, p)
    && ValidRuntime(Inherited(pools, p).runtime)
    && MembersAgree(pools, p)
  }

  ghost predicate NodeOk(pools: seq<Pool>, n: Node) {
    n.name != "" && (n.pool == "" || IsConcrete(pools, n.pool))
  }

  ghost predicate Lists<T(!new)>(s: seq<T>, nameOf: T -> string, name: string) {
    exists x <- s :: nameOf(x) == name
  }

  ghost predicate UserOk(groups: seq<Group>, u: User) {
    u.name != "" && Distinct(u.groups) && forall g <- u.groups :: Lists(groups, NameOfGroup, g)
  }

  /** The rule is well shaped and what it names exists. */
  ghost predicate RuleOk(c: Catalog, r: QuotaRule) {
    && r.ValidShape()
    && (r.subject.OneUser? ==> Lists(c.users, NameOfUser, r.name))
    && (r.subject.OneGroup? ==> Lists(c.groups, NameOfGroup, r.name))
    && (r.scope.InPool? ==> FindPool(c.pools, r.target).Some?)
    && (r.scope.OnNode? ==> Lists(c.nodes, NameOfNode, r.target))
  }

  ghost predicate PoolsOk(pools: seq<Pool>) {
    UniqueBy(pools, NameOfPool) && forall p <- pools :: PoolOk(pools, p)
  }

  ghost predicate NodesOk(c: Catalog) {
    UniqueBy(c.nodes, NameOfNode) && forall n <- c.nodes :: NodeOk(c.pools, n)
  }

  ghost predicate GroupsOk(c: Catalog) {
    UniqueBy(c.groups, NameOfGroup) && forall g <- c.groups :: g.name != ""
  }

  ghost predicate UsersOk(c: Catalog) {
    UniqueBy(c.users, NameOfUser) && forall u <- c.users :: UserOk(c.groups, u)
  }

  ghost predicate RulesOk(c: Catalog) {
    UniqueBy(c.quotas, Key) && forall r <- c.quotas :: RuleOk(c, r)
  }

  /** No duplicate and no dangling name anywhere, and every virtual pool can run on each of its members. */
  ghost predicate Valid(c: Catalog) {
    PoolsOk(c.pools) && NodesOk(c) && GroupsOk(c) && UsersOk(c) && RulesOk(c)
  }

  lemma ValidIsTidy(c: Catalog)
    requires Valid(c)
    ensures Tidy(c)
  {
    forall r <- c.quotas ensures r.ValidShape() {
      assert RuleOk(c, r);
    }
  }

  /** Every pool completed. */
  function CompletedAll(pools: seq<Pool>): seq<Pool> {
    seq(|pools|, i requires 0 <= i < |pools| => Completed(pools, pools[i]))
  }

  function InheritedAll(pools: seq<Pool>): seq<Pool> {
    seq(|pools|, i requires 0 <= i < |pools| => Inherited(pools, pools[i]))
  }

  function Complete(c: Catalog): Catalog {
    c.(pools := CompletedAll(c.pools))
  }

  // ------------------------------------------------- validity ignores order

  lemma ListsPermutes<T(!new)>(s: seq<T>, t: seq<T>, nameOf: T -> string, name: string)
    requires multiset(s) == multiset(t) && Lists(s, nameOf, name)
    ensures Lists(t, nameOf, name)
  {
    SameElements(s, t);
  }

  lemma TidiedUser(groups: seq<Group>, groups': seq<Group>, u: User)
    requires multiset(groups) == multiset(groups')
    ensures UserOk(groups, u) ==> UserOk(groups', Tidied(u))
    ensures UserOk(groups', Tidied(u)) ==> UserOk(groups, u)
  {
    SortStringsSorts(u.groups);
    SameElements(u.groups, SortStrings(u.groups));
    DistinctPermutes(u.groups, SortStrings(u.groups));
    forall g ensures Lists(groups, NameOfGroup, g) <==> Lists(groups', NameOfGroup, g) {
      if Lists(groups, NameOfGroup, g) { ListsPermutes(groups, groups', NameOfGroup, g); }
      if Lists(groups', NameOfGroup, g) { ListsPermutes(groups', groups, NameOfGroup, g); }
    }
  }

  function Id<T>(x: T): T { x }

  lemma DistinctPermutes(s: seq<string>, t: seq<string>)
    requires multiset(s) == multiset(t)
    ensures Distinct(s) <==> Distinct(t)
  {
    if Distinct(s) {
      UniqueByPermutes(s, t, Id);
      assert forall i, j | 0 <= i < j < |t| :: Id(t[i]) != Id(t[j]);
    }
    if Distinct(t) {
      UniqueByPermutes(t, s, Id);
      assert forall i, j | 0 <= i < j < |s| :: Id(s[i]) != Id(s[j]);
    }
  }

  lemma UsersPermute(a: Catalog, b: Catalog)
    requires SameCatalog(a, b) && UsersOk(a)
    ensures UsersOk(b)
  {
    var us, vs := Mapped(a.users, Tidied), Mapped(b.users, Tidied);
    SameElements(us, vs);
    assert UniqueBy(us, NameOfUser);
    UniqueByPermutes(us, vs, NameOfUser);
    forall i, j | 0 <= i < j < |b.users| ensures NameOfUser(b.users[i]) != NameOfUser(b.users[j]) {
      assert NameOfUser(vs[i]) != NameOfUser(vs[j]);
    }
    forall u <- b.users ensures UserOk(b.groups, u) {
      var j :| 0 <= j < |b.users| && b.users[j] == u;
      assert vs[j] == Tidied(u) && Tidied(u) in us;
      var i :| 0 <= i < |us| && us[i] == Tidied(u);
      assert UserOk(a.groups, a.users[i]);
      TidiedUser(a.groups, a.groups, a.users[i]);
      TidiedUser(b.groups, a.groups, u);
    }
  }

  lemma NodesPermute(a: Catalog, b: Catalog)
    requires SameCatalog(a, b) && NodesOk(a)
    ensures NodesOk(b)
  {
    UniqueByPermutes(a.nodes, b.nodes, NameOfNode);
    SameElements(a.nodes, b.nodes);
  }

  lemma GroupsPermute(a: Catalog, b: Catalog)
    requires SameCatalog(a, b) && GroupsOk(a)
    ensures GroupsOk(b)
  {
    UniqueByPermutes(a.groups, b.groups, NameOfGroup);
    SameElements(a.groups, b.groups);
  }

  lemma UserNamesPermute(a: Catalog, b: Catalog, name: string)
    requires SameCatalog(a, b) && Lists(a.users, NameOfUser, name)
    ensures Lists(b.users, NameOfUser, name)
  {
    hide SortStrings;
    var us, vs := Mapped(a.users, Tidied), Mapped(b.users, Tidied);
    SameElements(us, vs);
    var i :| 0 <= i < |a.users| && NameOfUser(a.users[i]) == name;
    assert us[i] in us && us[i] in vs;
    var j :| 0 <= j < |vs| && vs[j] == us[i];
    assert vs[j] == Tidied(b.users[j]) && us[i] == Tidied(a.users[i]);
    assert NameOfUser(b.users[j]) == name;
  }

  lemma RulesPermute(a: Catalog, b: Catalog)
    requires SameCatalog(a, b) && RulesOk(a)
    ensures RulesOk(b)
  {
    UniqueByPermutes(a.quotas, b.quotas, Key);
    SameElements(a.quotas, b.quotas);
    forall r <- b.quotas ensures RuleOk(b, r) {
      assert RuleOk(a, r);
      if r.subject.OneUser? { UserNamesPermute(a, b, r.name); }
      if r.subject.OneGroup? { ListsPermutes(a.groups, b.groups, NameOfGroup, r.name); }
      if r.scope.OnNode? { ListsPermutes(a.nodes, b.nodes, NameOfNode, r.target); }
    }
  }

  /** Validity does not depend on the order of nodes, groups, users, memberships or rules. */
  lemma ValidIgnoresOrder(a: Catalog, b: Catalog)
    requires SameCatalog(a, b) && Valid(a)
    ensures Valid(b)
  {
    NodesPermute(a, b);
    GroupsPermute(a, b);
    UsersPermute(a, b);
    RulesPermute(a, b);
  }

  lemma CloneIsAsValid(c: Catalog, d: Catalog)
    requires IsClone(c, d)
    ensures Valid(d) <==> Valid(c)
  {
    CloneIsTheSame(c, d);
    if Valid(c) { ValidIgnoresOrder(c, d); }
    if Valid(d) { ValidIgnoresOrder(d, c); }
  }

  // --------------------------------------------------------------- inheritance

  /** Looking up a pool in a list whose pools kept their names. */
  lemma {:induction false} FindInUpdated(ps: seq<Pool>, qs: seq<Pool>, name: string)
    requires |ps| == |qs| && forall i | 0 <= i < |ps| :: qs[i].name == ps[i].name && qs[i].spans == ps[i].spans
    ensures FindPool(qs, name).Some? <==> FindPool(ps, name).Some?
    ensures FindPool(ps, name).Some? ==> exists i | 0 <= i < |ps| ::
              ps[i] == FindPool(ps, name).value && qs[i] == FindPool(qs, name).value
  {
    if ps != [] {
      if ps[0].name != name {
        FindInUpdated(ps[1..], qs[1..], name);
        if FindPool(ps, name).Some? {
          var i :| 0 <= i < |ps| - 1 && ps[1..][i] == FindPool(ps, name).value && qs[1..][i] == FindPool(qs, name).value;
          assert ps[i + 1] == FindPool(ps, name).value && qs[i + 1] == FindPool(qs, name).value;
        }
      }
    }
  }

  /** Completing pools keeps who is concrete, and concrete pools as they are but for the cache. */
  lemma FindCompleted(ps: seq<Pool>, name: string)
    ensures FindPool(CompletedAll(ps), name).Some? <==> FindPool(ps, name).Some?
    ensures FindPool(ps, name).Some? ==> FindPool(CompletedAll(ps), name).value == Completed(ps, FindPool(ps, name).value)
  {
    FindInUpdated(ps, CompletedAll(ps), name);
  }

  /** What a completed pool inherits, it already has. */
  lemma CompletedTwice(ps: seq<Pool>, p: Pool)
    requires SpansOk(ps, p)
    ensures Completed(CompletedAll(ps), Completed(ps, p)) == Completed(ps, p)
  {
    if p.IsVirtual() {
      assert p.spans[0] in p.spans;
      FindCompleted(ps, p.spans[0]);
    }
  }

  lemma CompletedPoolOk(ps: seq<Pool>, p: Pool)
    requires PoolOk(ps, p)
    ensures PoolOk(CompletedAll(ps), Completed(ps, p))
  {
    var qs, q := CompletedAll(ps), Completed(ps, p);
    forall m <- p.spans ensures IsConcrete(qs, m) && Agree(FindPool(qs, m).value, Inherited(qs, q)) {
      FindCompleted(ps, m);
      CompletedSettings(ps, p);
    }
    CompletedSettings(ps, p);
  }

  lemma CompletedSettings(ps: seq<Pool>, p: Pool)
    requires SpansOk(ps, p)
    ensures Inherited(CompletedAll(ps), Completed(ps, p)).runtime == Inherited(ps, p).runtime
    ensures Inherited(CompletedAll(ps), Completed(ps, p)).Driver() == Inherited(ps, p).Driver()
  {
    if p.IsVirtual() {
      assert p.spans[0] in p.spans;
      FindCompleted(ps, p.spans[0]);
    }
  }

  /** Normalizing is idempotent on its result: a completed catalog is valid and complete. */
  lemma NormalizeIsIdempotent(c: Catalog)
    requires Valid(c)
    ensures Valid(Complete(c)) && Complete(Complete(c)) == Complete(c)
  {
    var d := Complete(c);
    forall p <- d.pools ensures PoolOk(d.pools, p) {
      var i :| 0 <= i < |d.pools| && d.pools[i] == p;
      CompletedPoolOk(c.pools, c.pools[i]);
    }
    forall i | 0 <= i < |c.pools| ensures Completed(d.pools, d.pools[i]) == d.pools[i] {
      assert PoolOk(c.pools, c.pools[i]);
      CompletedTwice(c.pools, c.pools[i]);
    }
    CompleteKeepsNames(c);
  }

  lemma CompleteKeepsNames(c: Catalog)
    requires Valid(c)
    ensures UniqueBy(CompletedAll(c.pools), NameOfPool) && NodesOk(Complete(c)) && RulesOk(Complete(c))
  {
    var d := Complete(c);
    forall i, j | 0 <= i < j < |d.pools| ensures NameOfPool(d.pools[i]) != NameOfPool(d.pools[j]) {
      assert NameOfPool(c.pools[i]) != NameOfPool(c.pools[j]);
    }
    forall n <- c.nodes ensures NodeOk(d.pools, n) {
      assert NodeOk(c.pools, n);
      FindCompleted(c.pools, n.pool);
    }
    forall r <- c.quotas ensures RuleOk(d, r) {
      assert RuleOk(c, r);
      FindCompleted(c.pools, r.target);
    }
  }
}
