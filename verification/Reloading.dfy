/** Loading what was saved gives the catalog back. */
module Reloading {
  import opened Wrappers
  import opened Counting
  import opened Sorting
  import opened Arrays
  import opened Catalogs
  import opened Canonical
  import opened Validation
  import opened Tables
  import opened Schema
  import opened Saving
  import opened Replacing
  import Loading

  /** No command has the element "NULL", which no array column gives back. */
  ghost predicate NoNulls(c: Catalog) {
    forall p <- c.pools :: "NULL" !in p.command && "NULL" !in p.runnerCommand
  }

  lemma HeldIsListed<K(!new), T(!new)>(t: Table<K, T>, rows: seq<(K, T)>)
    requires Holds(Data(t), rows)
    ensures Loading.Lists(Data(t), rows)
  {
  }

  // ------------------------------------------------------------------- pools

  lemma PoolIsReadBack(p: Pool, i: int)
    ensures Loading.PoolOf((p.name, PoolRowOf(p, i))) == p.(spans := []) <==> "NULL" !in p.command && "NULL" !in p.runnerCommand
  {
    ServerTextReads(p.command);
    ServerTextReads(p.runnerCommand);
  }

  lemma PoolRowsByPosition(pools: seq<Pool>)
    ensures SortedBy(PoolRows(pools), ByRank(Loading.PositionOf))
    ensures Antisymmetric(PoolRows(pools), ByRank(Loading.PositionOf))
  {
    var rows, le := PoolRows(pools), ByRank(Loading.PositionOf);
    forall i, j | 0 <= i < |rows| && 0 <= j < |rows| ensures le(rows[i], rows[j]) <==> i <= j {
      assert Loading.PositionOf(rows[i]) == i && Loading.PositionOf(rows[j]) == j;
    }
    forall x, y | x in rows && y in rows && le(x, y) && le(y, x) ensures x == y {
      var i :| 0 <= i < |rows| && rows[i] == x;
      var j :| 0 <= j < |rows| && rows[j] == y;
      assert le(rows[i], rows[j]) && le(rows[j], rows[i]);
    }
  }

  lemma PoolRowsReadBack(t: CatalogTables, c: Catalog, rows: seq<Loading.PoolEntry>)
    requires UniqueBy(c.pools, NameOfPool) && Holds(Data(t.pools), PoolRows(c.pools))
    requires UniqueKeys(rows) && Loading.Lists(Data(t.pools), rows) && SortedBy(rows, ByRank(Loading.PositionOf))
    ensures rows == PoolRows(c.pools)
  {
    PoolRowsUnique(c);
    HeldIsListed(t.pools, PoolRows(c.pools));
    Loading.ListingsAgree(Data(t.pools), rows, PoolRows(c.pools));
    ByRankIsTotal(Loading.PositionOf);
    PoolRowsByPosition(c.pools);
    SortedArrangementsAgree(PoolRows(c.pools), rows, ByRank(Loading.PositionOf));
  }

  /** The membership rows of a pool, in the order of its spans. */
  function SpanEntries(p: Pool): seq<Loading.MemberEntry> {
    seq(|p.spans|, i requires 0 <= i < |p.spans| => ((p.name, p.spans[i]), i))
  }

  lemma EntriesAreTheSpans(t: CatalogTables, c: Catalog, p: Pool, row: Loading.MemberEntry)
    requires HoldsCatalog(t, c) && UniqueBy(c.pools, NameOfPool) && p in c.pools
    ensures row.0 in t.poolMembers && row.1 == t.poolMembers[row.0] && row.0.0 == p.name <==> row in SpanEntries(p)
  {
    assert Placed(t.poolMembers, p);
    if row.0 in t.poolMembers && row.1 == t.poolMembers[row.0] && row.0.0 == p.name {
      assert SpansAs(c.pools, row.0);
      var q :| q in c.pools && q.name == row.0.0 && row.0.1 in q.spans;
      assert NameOfPool(q) == NameOfPool(p);
      KeysIdentify(c.pools, NameOfPool, p, q);
      var i :| 0 <= i < |p.spans| && p.spans[i] == row.0.1;
      assert SpanEntries(p)[i] == row;
    }
    if row in SpanEntries(p) {
      var i :| 0 <= i < |p.spans| && SpanEntries(p)[i] == row;
      assert (p.name, p.spans[i]) in t.poolMembers;
    }
  }

  lemma MembersSorted(rows: seq<Loading.MemberEntry>, name: string)
    requires SortedBy(rows, Loading.MemberOrder())
    ensures SortedBy(Filter(rows, Loading.InPoolNamed(name)), ByRank(Loading.MemberPosition))
  {
    var mine := Filter(rows, Loading.InPoolNamed(name));
    FilterKeepsOrder(rows, Loading.InPoolNamed(name), Loading.MemberOrder());
    forall i, j | 0 <= i < j < |mine| ensures ByRank(Loading.MemberPosition)(mine[i], mine[j]) {
      assert Loading.MemberOrder()(mine[i], mine[j]);
      assert mine[i] in mine && mine[j] in mine;
      SamePoolByPosition(mine[i], mine[j]);
    }
  }

  lemma SamePoolByPosition(a: Loading.MemberEntry, b: Loading.MemberEntry)
    requires a.0.0 == b.0.0 && Loading.MemberOrder()(a, b)
    ensures ByRank(Loading.MemberPosition)(a, b)
  {
    ByNameIsTotal(Loading.MemberPool);
    assert ByName(Loading.MemberPool)(a, b) || ByName(Loading.MemberPool)(b, a);
    assert Loading.MemberPool(a) == Loading.MemberPool(b);
  }

  lemma EntriesByPosition(p: Pool)
    ensures SortedBy(SpanEntries(p), ByRank(Loading.MemberPosition))
    ensures Antisymmetric(SpanEntries(p), ByRank(Loading.MemberPosition))
  {
    var rows, le := SpanEntries(p), ByRank(Loading.MemberPosition);
    forall i, j | 0 <= i < |rows| && 0 <= j < |rows| ensures le(rows[i], rows[j]) <==> i <= j {
      assert Loading.MemberPosition(rows[i]) == i && Loading.MemberPosition(rows[j]) == j;
    }
    forall x, y | x in rows && y in rows && le(x, y) && le(y, x) ensures x == y {
      var i :| 0 <= i < |rows| && rows[i] == x;
      var j :| 0 <= j < |rows| && rows[j] == y;
      assert le(rows[i], rows[j]) && le(rows[j], rows[i]);
    }
  }

  lemma EntriesAreDistinct(p: Pool)
    ensures Distinct(SpanEntries(p))
  {
  }

  lemma MineAreDistinct(rows: seq<Loading.MemberEntry>, name: string)
    requires UniqueKeys(rows)
    ensures Distinct(Filter(rows, Loading.InPoolNamed(name)))
  {
    forall i, j | 0 <= i < j < |rows| ensures Loading.KeyOf(rows[i]) != Loading.KeyOf(rows[j]) {
      assert rows[i].0 != rows[j].0;
    }
    FilterKeepsUnique(rows, Loading.InPoolNamed(name), Loading.KeyOf);
    DistinctEntries(Filter(rows, Loading.InPoolNamed(name)));
  }

  lemma MineAreTheEntries(t: CatalogTables, c: Catalog, rows: seq<Loading.MemberEntry>, p: Pool, row: Loading.MemberEntry)
    requires HoldsCatalog(t, c) && UniqueBy(c.pools, NameOfPool) && p in c.pools
    requires Loading.Lists(t.poolMembers, rows)
    ensures row in Filter(rows, Loading.InPoolNamed(p.name)) <==> row in SpanEntries(p)
  {
    EntriesAreTheSpans(t, c, p, row);
    assert Loading.InPoolNamed(p.name)(row) <==> row.0.0 == p.name;
    if row in SpanEntries(p) {
      assert (row.0, t.poolMembers[row.0]) in rows;
    }
  }

  /** A pool's members come back in the order they were authored. */
  lemma SpansReadBack(t: CatalogTables, c: Catalog, rows: seq<Loading.MemberEntry>, p: Pool)
    requires HoldsCatalog(t, c) && UniqueBy(c.pools, NameOfPool) && p in c.pools
    requires UniqueKeys(rows) && Loading.Lists(t.poolMembers, rows) && SortedBy(rows, Loading.MemberOrder())
    ensures Loading.MembersIn(rows, p.name) == p.spans
  {
    hide SpanEntries;
    hide HoldsCatalog;
    hide Filter;
    var mine, entries := Filter(rows, Loading.InPoolNamed(p.name)), SpanEntries(p);
    MembersSorted(rows, p.name);
    MineAreDistinct(rows, p.name);
    EntriesAreDistinct(p);
    forall row ensures row in mine <==> row in entries {
      MineAreTheEntries(t, c, rows, p, row);
    }
    SameElementsPermute(entries, mine);
    ByRankIsTotal(Loading.MemberPosition);
    EntriesByPosition(p);
    SortedArrangementsAgree(entries, mine, ByRank(Loading.MemberPosition));
    EntryNames(p);
  }

  lemma EntryNames(p: Pool)
    ensures Mapped(SpanEntries(p), Loading.MemberName) == p.spans
  {
    var rows := SpanEntries(p);
    forall i | 0 <= i < |rows| ensures Loading.MemberName(rows[i]) == p.spans[i] {
      assert rows[i] == ((p.name, p.spans[i]), i);
    }
  }

  lemma DistinctEntries(rows: seq<Loading.MemberEntry>)
    requires UniqueBy(rows, Loading.KeyOf)
    ensures Distinct(rows)
  {
    assert forall i, j | 0 <= i < j < |rows| :: Loading.KeyOf(rows[i]) != Loading.KeyOf(rows[j]);
  }

  /** The pools come back as they were exactly when no command has the element "NULL". */
  lemma PoolsReadBack(t: CatalogTables, c: Catalog, a: Loading.Answers)
    requires HoldsCatalog(t, c) && Valid(c) && Loading.Answer(t, a)
    ensures Loading.PoolsOf(a.pools, a.members) == c.pools <==> NoNulls(c)
  {
    var pools := Loading.PoolsOf(a.pools, a.members);
    PoolRowsReadBack(t, c, a.pools);
    forall i | 0 <= i < |c.pools|
      ensures pools[i] == c.pools[i] <==> "NULL" !in c.pools[i].command && "NULL" !in c.pools[i].runnerCommand
    {
      var p := c.pools[i];
      assert p in c.pools && PoolOk(c.pools, p);
      PoolIsReadBack(p, i);
      SpansReadBack(t, c, a.members, p);
    }
  }

  // -------------------------------------------------- nodes, groups and rules

  lemma NodesReadBack(t: CatalogTables, c: Catalog, rows: seq<(string, Option<string>)>)
    requires UniqueBy(c.nodes, NameOfNode) && Holds(Data(t.nodes), NodeRows(c.nodes))
    requires UniqueKeys(rows) && Loading.Lists(Data(t.nodes), rows)
    ensures multiset(Mapped(rows, Loading.NodeOf)) == multiset(c.nodes)
  {
    NodeRowsUnique(c);
    HeldIsListed(t.nodes, NodeRows(c.nodes));
    Loading.ListingsAgree(Data(t.nodes), rows, NodeRows(c.nodes));
    MappedPermutes(rows, NodeRows(c.nodes), Loading.NodeOf);
    assert Mapped(NodeRows(c.nodes), Loading.NodeOf) == c.nodes;
  }

  lemma GroupsReadBack(t: CatalogTables, c: Catalog, rows: seq<(string, GroupRow)>)
    requires UniqueBy(c.groups, NameOfGroup) && Holds(Data(t.groups), GroupRows(c.groups))
    requires UniqueKeys(rows) && Loading.Lists(Data(t.groups), rows)
    ensures multiset(Mapped(rows, Loading.GroupOf)) == multiset(c.groups)
  {
    GroupRowsUnique(c);
    HeldIsListed(t.groups, GroupRows(c.groups));
    Loading.ListingsAgree(Data(t.groups), rows, GroupRows(c.groups));
    MappedPermutes(rows, GroupRows(c.groups), Loading.GroupOf);
    assert Mapped(GroupRows(c.groups), Loading.GroupOf) == c.groups;
  }

  lemma RuleIsReadBack(r: QuotaRule)
    requires r.ValidShape()
    ensures Loading.RuleFrom((IdOf(r), RuleRow(r.maxSlots, r.note))) == r
  {
    assert r.name + "" == r.name && "" + r.name == r.name && r.target + "" == r.target && "" + r.target == r.target;
  }

  lemma RulesReadBack(t: CatalogTables, c: Catalog, rows: seq<(RuleId, RuleRow)>)
    requires RulesOk(c) && Holds(Data(t.rules), RuleRows(c.quotas))
    requires UniqueKeys(rows) && Loading.Lists(Data(t.rules), rows)
    ensures multiset(Mapped(rows, Loading.RuleFrom)) == multiset(c.quotas)
  {
    RuleRowsUnique(c);
    HeldIsListed(t.rules, RuleRows(c.quotas));
    Loading.ListingsAgree(Data(t.rules), rows, RuleRows(c.quotas));
    MappedPermutes(rows, RuleRows(c.quotas), Loading.RuleFrom);
    forall i | 0 <= i < |c.quotas| ensures Loading.RuleFrom(RuleRows(c.quotas)[i]) == c.quotas[i] {
      assert c.quotas[i] in c.quotas && RuleOk(c, c.quotas[i]);
      RuleIsReadBack(c.quotas[i]);
    }
    assert Mapped(RuleRows(c.quotas), Loading.RuleFrom) == c.quotas;
  }

  // ------------------------------------------------------------------- users

  function TidiedRow(ms: seq<(string, string)>): ((string, UserRow)) -> User {
    (row: (string, UserRow)) => Tidied(Loading.UserOf(ms, row))
  }

  lemma GroupsAreDistinct(ms: seq<(string, string)>, name: string)
    requires Distinct(ms)
    ensures Distinct(Loading.GroupsOf(ms, name))
    ensures forall g :: g in Loading.GroupsOf(ms, name) <==> (g, name) in ms
  {
    var mine := Filter(ms, Loading.OfUserNamed(name));
    FilterKeepsUnique(ms, Loading.OfUserNamed(name), Id);
    forall i, j | 0 <= i < j < |mine| ensures Loading.GroupIn(mine[i]) != Loading.GroupIn(mine[j]) {
      assert mine[i] in mine && mine[j] in mine;
      assert Loading.OfUserNamed(name)(mine[i]) && Loading.OfUserNamed(name)(mine[j]);
      assert Id(mine[i]) != Id(mine[j]);
    }
    forall g ensures g in Loading.GroupsOf(ms, name) <==> (g, name) in ms {
      assert Loading.OfUserNamed(name)((g, name)) && Loading.GroupIn((g, name)) == g;
      if (g, name) in ms {
        assert (g, name) in mine;
        var i :| 0 <= i < |mine| && mine[i] == (g, name);
        assert Loading.GroupsOf(ms, name)[i] == Loading.GroupIn(mine[i]);
      }
      if g in Loading.GroupsOf(ms, name) {
        var i :| 0 <= i < |mine| && Loading.GroupsOf(ms, name)[i] == g;
        assert mine[i] in mine && Loading.OfUserNamed(name)(mine[i]) && Loading.GroupIn(mine[i]) == mine[i].0;
      }
    }
  }

  lemma UserIsReadBack(t: CatalogTables, c: Catalog, ms: seq<(string, string)>, u: User)
    requires HoldsCatalog(t, c) && UniqueBy(c.users, NameOfUser) && u in c.users && Distinct(u.groups)
    requires Distinct(ms) && forall m :: m in ms <==> m in t.groupMembers
    ensures SortStrings(Loading.GroupsOf(ms, u.name)) == SortStrings(u.groups)
  {
    GroupsAreDistinct(ms, u.name);
    forall g ensures g in Loading.GroupsOf(ms, u.name) <==> g in u.groups {
      if g in Loading.GroupsOf(ms, u.name) {
        assert BelongsAs(c.users, (g, u.name));
        var v :| v in c.users && v.name == u.name && g in v.groups;
        assert NameOfUser(v) == NameOfUser(u);
        KeysIdentify(c.users, NameOfUser, u, v);
      }
      if g in u.groups {
        assert BelongsAs(c.users, (g, u.name));
      }
    }
    SameElementsPermute(Loading.GroupsOf(ms, u.name), u.groups);
    SortedAlike(Loading.GroupsOf(ms, u.name), u.groups);
  }

  lemma UsersReadBack(t: CatalogTables, c: Catalog, a: Loading.Answers)
    requires HoldsCatalog(t, c) && UsersOk(c) && Loading.Answer(t, a)
    ensures multiset(Mapped(Loading.CatalogFrom(a).users, Tidied)) == multiset(Mapped(c.users, Tidied))
  {
    var rows := UserRows(c.users);
    UserRowsUnique(c);
    HeldIsListed(t.users, rows);
    Loading.ListingsAgree(Data(t.users), a.users, rows);
    MappedPermutes(a.users, rows, TidiedRow(a.memberships));
    assert Mapped(Loading.CatalogFrom(a).users, Tidied) == Mapped(a.users, TidiedRow(a.memberships));
    forall i | 0 <= i < |c.users| ensures TidiedRow(a.memberships)(rows[i]) == Tidied(c.users[i]) {
      assert c.users[i] in c.users && UserOk(c.groups, c.users[i]);
      UserIsReadBack(t, c, a.memberships, c.users[i]);
    }
    assert Mapped(rows, TidiedRow(a.memberships)) == Mapped(c.users, Tidied);
  }

  /** Tables that hold exactly a valid catalog load as that catalog, up to the
      order of its sets, exactly when no command has the element "NULL". */
  lemma LoadGivesBack(t: CatalogTables, c: Catalog, a: Loading.Answers)
    requires HoldsCatalog(t, c) && Valid(c) && Loading.Answer(t, a)
    ensures SameCatalog(Loading.CatalogFrom(a), c) <==> NoNulls(c)
  {
    PoolsReadBack(t, c, a);
    NodesReadBack(t, c, a.nodes);
    GroupsReadBack(t, c, a.groups);
    UsersReadBack(t, c, a);
    RulesReadBack(t, c, a.rules);
  }

  /** A rule row the catalog does not have is loaded all the same. */
  lemma StaleRulesAreLoaded(t: CatalogTables, c: Catalog, now: int, id: RuleId, rows: seq<(RuleId, RuleRow)>)
    requires Consistent(t) && Valid(c) && Stale(t, c, id)
    requires UniqueKeys(rows) && Loading.Lists(Data(Saved(t, c, now).rules), rows)
    ensures |rows| > |c.quotas|
  {
    hide Saved;
    hide Consistent;
    var s, own := Saved(t, c, now), RuleRows(c.quotas);
    RulesReplaced(t, c, now);
    RuleRowsUnique(c);
    KeyCount(rows);
    KeyCount(own);
    assert KeysOf(rows) == s.rules.Keys by {
      forall k <- Data(s.rules) ensures k in KeysOf(rows) {
        assert (k, Data(s.rules)[k]) in rows;
      }
    }
    assert KeysOf(own) <= KeysOf(rows) - {id};
    SmallerSet(KeysOf(own), KeysOf(rows) - {id});
  }

  /** Loading what a save left: on any consistent database a valid catalog comes
      back the same if and only if no command has the element "NULL" and no rule
      row was stale; one without pools reads as never seeded. */
  lemma SavedLoadsBack(t: CatalogTables, c: Catalog, now: int, a: Loading.Answers)
    requires Consistent(t) && Valid(c) && Loading.Answer(Saved(t, c, now), a)
    ensures SameCatalog(Loading.CatalogFrom(a), c) <==> NoNulls(c) && forall id :: !Stale(t, c, id)
    ensures Saved(t, c, now).pools == map[] <==> c.pools == []
  {
    hide Saved;
    hide Stale;
    SaveReplacesEverything(t, c, now);
    SeededByPools(Saved(t, c, now), c);
    if id :| Stale(t, c, id) {
      StaleRulesAreLoaded(t, c, now, id, a.rules);
      assert |Loading.CatalogFrom(a).quotas| == |a.rules|;
      assert |multiset(Loading.CatalogFrom(a).quotas)| != |multiset(c.quotas)|;
    } else {
      LoadGivesBack(Saved(t, c, now), c, a);
    }
  }

  lemma SeededByPools(t: CatalogTables, c: Catalog)
    requires Holds(Data(t.pools), PoolRows(c.pools))
    ensures t.pools == map[] <==> c.pools == []
  {
    assert t.pools.Keys == Data(t.pools).Keys == KeysOf(PoolRows(c.pools));
    if c.pools != [] {
      assert PoolRows(c.pools)[0] in PoolRows(c.pools);
    }
  }
}
