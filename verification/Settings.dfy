/** What a catalog must be, and what its pools are filled in with, in terms of
    the catalog as it was written. */
module Settings {
  import opened Wrappers
  import opened Counting
  import opened Catalogs
  import opened RuleKeys
  import opened Canonical
  import opened Validation

  // ------------------------------------------------------------- the settings

  /** One pool of the result, from the pool as authored. Its name, description,
      constraints and members are as they were. Each setting that was given
      stays; on a pool that spans others each one left empty is that of the
      first member; and a cache directory still empty gets the usual place. */
  ghost predicate FilledIn(pools: seq<Pool>, p: Pool, q: Pool) {
    && q.name == p.name && q.description == p.description && q.constraints == p.constraints && q.spans == p.spans
    && (p.runtime != Unset ==> q.runtime == p.runtime)
    && (p.taskDriver != "" ==> q.taskDriver == p.taskDriver)
    && (p.image != "" ==> q.image == p.image)
    && (p.command != [] ==> q.command == p.command)
    && (p.runnerCommand != [] ==> q.runnerCommand == p.runnerCommand)
    && (p.dockerNetwork != "" ==> q.dockerNetwork == p.dockerNetwork)
    && (p.runnerUrl != "" ==> q.runnerUrl == p.runnerUrl)
    && (p.cacheDir != "" ==> q.cacheDir == p.cacheDir)
    && (p.hostVolume != "" ==> q.hostVolume == p.hostVolume)
    && (if p.spans == [] then
          q == p.(cacheDir := q.cacheDir) && (p.cacheDir == "" ==> q.cacheDir == "/var/lib/dtp/cache")
        else
          exists m <- pools | m.name == p.spans[0] ::
            && (p.runtime == Unset ==> q.runtime == m.runtime)
            && (p.taskDriver == "" ==> q.taskDriver == m.taskDriver)
            && (p.image == "" ==> q.image == m.image)
            && (p.command == [] ==> q.command == m.command)
            && (p.runnerCommand == [] ==> q.runnerCommand == m.runnerCommand)
            && (p.dockerNetwork == "" ==> q.dockerNetwork == m.dockerNetwork)
            && (p.runnerUrl == "" ==> q.runnerUrl == m.runnerUrl)
            && (p.cacheDir == "" && m.cacheDir != "" ==> q.cacheDir == m.cacheDir)
            && (p.cacheDir == "" && m.cacheDir == "" ==> q.cacheDir == "/var/lib/dtp/cache")
            && (p.hostVolume == "" ==> q.hostVolume == m.hostVolume))
  }

  lemma PoolIsFilledIn(pools: seq<Pool>, p: Pool)
    requires SpansOk(pools, p)
    ensures FilledIn(pools, p, Completed(pools, p))
  {
    if p.spans != [] {
      assert IsConcrete(pools, p.spans[0]);
      assert FindPool(pools, p.spans[0]).value in pools;
    }
  }

  lemma PoolsAreFilledIn(pools: seq<Pool>)
    requires PoolsOk(pools)
    ensures forall i | 0 <= i < |pools| :: FilledIn(pools, pools[i], CompletedAll(pools)[i])
  {
    hide FilledIn;
    forall i | 0 <= i < |pools| ensures FilledIn(pools, pools[i], CompletedAll(pools)[i]) {
      assert pools[i] in pools && PoolOk(pools, pools[i]);
      PoolIsFilledIn(pools, pools[i]);
    }
  }

  /** What runs on a pool: the driver it names, or docker for containers and exec otherwise. */
  predicate RunsWith(p: Pool, driver: string) {
    driver == p.taskDriver || (p.taskDriver == "" && driver == if p.runtime == Container then "docker" else "exec")
  }

  /** A member spans nothing itself, and runs what the pool that spans it runs: of
      one runtime, process or container, and with one driver. */
  ghost predicate CanStandIn(m: Pool, q: Pool) {
    && m.spans == [] && m.runtime == q.runtime && q.runtime in {Process, Container}
    && exists driver :: driver != "" && RunsWith(m, driver) && RunsWith(q, driver)
  }

  lemma MembersStandIn(pools: seq<Pool>)
    requires PoolsOk(pools)
    ensures forall q <- CompletedAll(pools), m <- CompletedAll(pools) | m.name in q.spans :: CanStandIn(m, q)
  {
    hide CanStandIn;
    hide PoolOk;
    hide Completed;
    forall q, m | q in CompletedAll(pools) && m in CompletedAll(pools) && m.name in q.spans ensures CanStandIn(m, q) {
      var i :| 0 <= i < |pools| && CompletedAll(pools)[i] == q;
      var j :| 0 <= j < |pools| && CompletedAll(pools)[j] == m;
      assert PoolOk(pools, pools[i]) && PoolOk(pools, pools[j]);
      CompletedIsNamed(pools, pools[i]);
      CompletedIsNamed(pools, pools[j]);
      MemberStandsIn(pools, pools[i], pools[j]);
    }
  }

  lemma CompletedIsNamed(pools: seq<Pool>, p: Pool)
    ensures Completed(pools, p).name == p.name && Completed(pools, p).spans == p.spans
  {
  }

  lemma MemberStandsIn(pools: seq<Pool>, p: Pool, m: Pool)
    requires UniqueBy(pools, NameOfPool) && p in pools && m in pools && PoolOk(pools, p) && PoolOk(pools, m) && m.name in p.spans
    ensures CanStandIn(Completed(pools, m), Completed(pools, p))
  {
    assert IsConcrete(pools, m.name) && AgreesWith(pools, p, m.name);
    KeysIdentify(pools, NameOfPool, FindPool(pools, m.name).value, m);
    var q := Inherited(pools, p);
    assert m.runtime == q.runtime && m.Driver() == q.Driver();
    assert RunsWith(Completed(pools, m), m.Driver()) && RunsWith(Completed(pools, p), m.Driver());
  }

  lemma CloneKeepsPools(c: Catalog, d: Catalog)
    requires IsClone(c, d)
    ensures d.pools == c.pools
  {
  }

  // -------------------------------------------------------- what is accepted

  /** The pool with the runtime and driver it left out filled in from the member. */
  function With(p: Pool, first: Pool): Pool {
    p.(runtime := if p.runtime == Unset then first.runtime else p.runtime,
       taskDriver := if p.taskDriver == "" then first.taskDriver else p.taskDriver)
  }

  /** The pool has a name; it spans pools that span nothing, each once; and its
      runtime, its own or that of the first member, is a known one, which every
      member shares together with the driver. */
  ghost predicate SoundPool(pools: seq<Pool>, p: Pool) {
    && p.name != ""
    && (forall i, j | 0 <= i < j < |p.spans| :: p.spans[i] != p.spans[j])
    && (forall name <- p.spans :: exists m <- pools :: m.name == name && m.spans == [])
    && (p.spans == [] ==> p.runtime in {Process, Container})
    && (forall first <- pools, m <- pools | p.spans != [] && first.name == p.spans[0] && m.name in p.spans ::
          CanStandIn(m, With(p, first)))
  }

  ghost predicate SoundPools(pools: seq<Pool>) {
    && (forall i, j | 0 <= i < j < |pools| :: pools[i].name != pools[j].name)
    && (forall p <- pools :: SoundPool(pools, p))
  }

  /** Nodes are named, each once, and work in no pool or in one that spans nothing. */
  ghost predicate SoundNodes(c: Catalog) {
    && (forall i, j | 0 <= i < j < |c.nodes| :: c.nodes[i].name != c.nodes[j].name)
    && (forall n <- c.nodes :: n.name != "")
    && (forall n <- c.nodes | n.pool != "" :: exists p <- c.pools :: p.name == n.pool && p.spans == [])
  }

  /** Groups and users are named, each once, and users are in listed groups, in each once. */
  ghost predicate SoundPeople(c: Catalog) {
    && (forall i, j | 0 <= i < j < |c.groups| :: c.groups[i].name != c.groups[j].name)
    && (forall i, j | 0 <= i < j < |c.users| :: c.users[i].name != c.users[j].name)
    && (forall g <- c.groups :: g.name != "")
    && (forall u <- c.users :: u.name != "")
    && (forall u <- c.users :: forall i, j | 0 <= i < j < |u.groups| :: u.groups[i] != u.groups[j])
    && (forall u <- c.users, name <- u.groups :: exists g <- c.groups :: g.name == name)
  }

  /** The rule's kinds are known, it has names exactly where its kinds ask for
      one, and the user, group, pool or node it names is listed. */
  ghost predicate SoundRule(c: Catalog, r: QuotaRule) {
    && r.subject in {OneUser, OneGroup, Everyone} && r.scope in {OnNode, InPool, Anywhere} && r.maxSlots >= 0
    && (r.subject == OneUser ==> !r.together && r.name != "" && exists u <- c.users :: u.name == r.name)
    && (r.subject == OneGroup ==> r.name != "" && exists g <- c.groups :: g.name == r.name)
    && (r.subject == Everyone ==> r.name == "")
    && (r.scope == InPool ==> r.target != "" && exists p <- c.pools :: p.name == r.target)
    && (r.scope == OnNode ==> r.target != "" && exists n <- c.nodes :: n.name == r.target)
    && (r.scope == Anywhere ==> r.target == "")
  }

  ghost predicate SoundRules(c: Catalog) {
    && (forall i, j | 0 <= i < j < |c.quotas| :: Key(c.quotas[i]) != Key(c.quotas[j]))
    && (forall r <- c.quotas :: SoundRule(c, r))
  }

  ghost predicate Sound(c: Catalog) {
    SoundPools(c.pools) && SoundNodes(c) && SoundPeople(c) && SoundRules(c)
  }

  /** Validation accepts exactly these catalogs. */
  lemma SoundMeansValid(c: Catalog)
    ensures Sound(c) <==> Valid(c)
  {
    hide SoundPools;
    hide SoundNodes;
    hide SoundPeople;
    hide SoundRules;
    hide PoolsOk;
    hide NodesOk;
    hide GroupsOk;
    hide UsersOk;
    hide RulesOk;
    PoolsAreSound(c.pools);
    if PoolsOk(c.pools) {
      NodesAreSound(c);
    }
    PeopleAreSound(c);
    RulesAreSound(c);
  }

  /** With each pool named once, the pool of a name is the one listed. */
  lemma ConcreteMeans(pools: seq<Pool>, name: string)
    requires UniqueBy(pools, NameOfPool)
    ensures IsConcrete(pools, name) <==> exists p <- pools :: p.name == name && p.spans == []
  {
    forall p <- pools | p.name == name ensures FindPool(pools, name) == Some(p) {
      KeysIdentify(pools, NameOfPool, FindPool(pools, name).value, p);
    }
  }

  lemma SpansMean(pools: seq<Pool>, p: Pool)
    requires UniqueBy(pools, NameOfPool)
    ensures SpansOk(pools, p) <==>
      && (forall i, j | 0 <= i < j < |p.spans| :: p.spans[i] != p.spans[j])
      && (forall name <- p.spans :: exists m <- pools :: m.name == name && m.spans == [])
  {
    hide IsConcrete;
    forall name <- p.spans ensures IsConcrete(pools, name) <==> exists m <- pools :: m.name == name && m.spans == [] {
      ConcreteMeans(pools, name);
    }
  }

  lemma RunsWithItsDriver(p: Pool, driver: string)
    requires driver != ""
    ensures RunsWith(p, driver) <==> driver == p.Driver()
  {
  }

  lemma StandsInMeans(m: Pool, q: Pool)
    ensures CanStandIn(m, q) <==> m.spans == [] && ValidRuntime(q.runtime) && Agree(m, q)
  {
    hide RunsWith;
    var d := m.Driver();
    RunsWithItsDriver(m, d);
    RunsWithItsDriver(q, d);
    if driver :| driver != "" && RunsWith(m, driver) && RunsWith(q, driver) {
      RunsWithItsDriver(m, driver);
      RunsWithItsDriver(q, driver);
    }
    assert (exists driver :: driver != "" && RunsWith(m, driver) && RunsWith(q, driver)) <==> d == q.Driver();
  }

  /** A pool that spans others agrees with each of them, as it is listed. */
  lemma MembersAgreeMeans(pools: seq<Pool>, p: Pool)
    requires UniqueBy(pools, NameOfPool) && SpansOk(pools, p) && p.spans != []
    ensures ValidRuntime(Inherited(pools, p).runtime) && MembersAgree(pools, p) <==>
      forall first <- pools, m <- pools | first.name == p.spans[0] && m.name in p.spans :: CanStandIn(m, With(p, first))
  {
    hide CanStandIn;
    hide Agree;
    hide ValidRuntime;
    assert p.spans[0] in p.spans && IsConcrete(pools, p.spans[0]);
    var f := FindPool(pools, p.spans[0]).value;
    var q := Inherited(pools, p);
    forall first <- pools | first.name == p.spans[0] ensures first == f {
      KeysIdentify(pools, NameOfPool, f, first);
    }
    forall m <- pools | m.name in p.spans
      ensures CanStandIn(m, With(p, f)) <==> ValidRuntime(q.runtime) && AgreesWith(pools, p, m.name)
    {
      MemberAgrees(pools, p, m);
    }
    forall name <- p.spans ensures exists m <- pools :: m.name == name {
      assert IsConcrete(pools, name);
    }
  }

  lemma MemberAgrees(pools: seq<Pool>, p: Pool, m: Pool)
    requires UniqueBy(pools, NameOfPool) && SpansOk(pools, p) && p.spans != [] && m in pools && m.name in p.spans
    requires FindPool(pools, p.spans[0]).Some?
    ensures CanStandIn(m, With(p, FindPool(pools, p.spans[0]).value)) <==>
      ValidRuntime(Inherited(pools, p).runtime) && AgreesWith(pools, p, m.name)
  {
    hide CanStandIn;
    assert IsConcrete(pools, m.name);
    KeysIdentify(pools, NameOfPool, FindPool(pools, m.name).value, m);
    StandsInMeans(m, With(p, FindPool(pools, p.spans[0]).value));
  }

  lemma PoolIsSound(pools: seq<Pool>, p: Pool)
    requires UniqueBy(pools, NameOfPool)
    ensures SoundPool(pools, p) <==> PoolOk(pools, p)
  {
    hide CanStandIn;
    hide SpansOk;
    hide MembersAgree;
    SpansMean(pools, p);
    if SpansOk(pools, p) {
      if p.spans == [] {
        NoMembers(pools, p);
      } else {
        MembersAgreeMeans(pools, p);
      }
    }
  }

  lemma NoMembers(pools: seq<Pool>, p: Pool)
    requires p.spans == []
    ensures MembersAgree(pools, p) && Inherited(pools, p) == p
  {
  }

  lemma PoolsAreSound(pools: seq<Pool>)
    ensures SoundPools(pools) <==> PoolsOk(pools)
  {
    hide SoundPool;
    hide PoolOk;
    if UniqueBy(pools, NameOfPool) {
      forall p { PoolIsSound(pools, p); }
    }
  }

  lemma NodesAreSound(c: Catalog)
    requires PoolsOk(c.pools)
    ensures SoundNodes(c) <==> NodesOk(c)
  {
    hide PoolOk;
    hide IsConcrete;
    forall name ensures IsConcrete(c.pools, name) <==> exists p <- c.pools :: p.name == name && p.spans == [] {
      ConcreteMeans(c.pools, name);
    }
  }

  lemma PeopleAreSound(c: Catalog)
    ensures SoundPeople(c) <==> GroupsOk(c) && UsersOk(c)
  {
  }

  lemma RulesAreSound(c: Catalog)
    ensures SoundRules(c) <==> RulesOk(c)
  {
    hide SoundRule;
    hide RuleOk;
    hide Key;
    forall r { RuleIsSound(c, r); }
  }

  lemma RuleIsSound(c: Catalog, r: QuotaRule)
    ensures SoundRule(c, r) <==> RuleOk(c, r)
  {
    ShapeMeans(r);
  }
}
