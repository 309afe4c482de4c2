/** Saving a catalog: every row upserted, and what it no longer has deleted, in one transaction. */
module Saving {
  import opened Wrappers
  import opened Counting
  import opened Catalogs
  import opened RuleKeys
  import opened Validation
  import opened Tables
  import opened Schema

  // -------------------------------------------------------------------- rows

  function NullIfEmpty(s: string): Option<string> {
    if s == "" then None else Some(s)
  }

  function PoolRowOf(p: Pool, position: int): PoolRow {
    PoolRow(p.description, if p.runtime.Unset? then None else Some(p.runtime), NullIfEmpty(p.taskDriver), p.image, p.command,
            p.runnerCommand, p.runnerUrl, p.dockerNetwork, p.cacheDir, p.hostVolume, p.constraints, position)
  }

  function PoolRows(pools: seq<Pool>): seq<(string, PoolRow)> {
    seq(|pools|, i requires 0 <= i < |pools| => (pools[i].name, PoolRowOf(pools[i], i)))
  }

  function NodeRows(nodes: seq<Node>): seq<(string, Option<string>)> {
    seq(|nodes|, i requires 0 <= i < |nodes| => (nodes[i].name, NullIfEmpty(nodes[i].pool)))
  }

  function GroupRows(groups: seq<Group>): seq<(string, GroupRow)> {
    seq(|groups|, i requires 0 <= i < |groups| => (groups[i].name, GroupRow(groups[i].description, i)))
  }

  function UserRows(users: seq<User>): seq<(string, UserRow)> {
    seq(|users|, i requires 0 <= i < |users| => (users[i].name, UserRow(users[i].displayName, users[i].email)))
  }

  function IdOf(r: QuotaRule): RuleId {
    RuleId(r.subject,
           if r.subject.OneUser? then Some(r.name) else None,
           if r.subject.OneGroup? then Some(r.name) else None,
           r.together,
           r.scope,
           if r.scope.InPool? then Some(r.target) else None,
           if r.scope.OnNode? then Some(r.target) else None)
  }

  function RuleRows(rules: seq<QuotaRule>): seq<(RuleId, RuleRow)> {
    seq(|rules|, i requires 0 <= i < |rules| => (IdOf(rules[i]), RuleRow(rules[i].maxSlots, rules[i].note)))
  }

  /** The memberships of a virtual pool, added to those before. */
  function WithSpans(m: map<(string, string), int>, p: Pool, n: nat): map<(string, string), int>
    requires n <= |p.spans|
  {
    if n == 0 then m else WithSpans(m, p, n - 1)[(p.name, p.spans[n - 1]) := n - 1]
  }

  function SpanRows(pools: seq<Pool>): map<(string, string), int> {
    if pools == [] then map[]
    else WithSpans(SpanRows(pools[..|pools| - 1]), pools[|pools| - 1], |pools[|pools| - 1].spans|)
  }

  function WithMemberships(m: set<(string, string)>, u: User, n: nat): set<(string, string)>
    requires n <= |u.groups|
  {
    if n == 0 then m else WithMemberships(m, u, n - 1) + {(u.groups[n - 1], u.name)}
  }

  function MembershipRows(users: seq<User>): set<(string, string)> {
    if users == [] then {}
    else WithMemberships(MembershipRows(users[..|users| - 1]), users[|users| - 1], |users[|users| - 1].groups|)
  }

  /** The names to keep; with none at all, the empty name stands in. */
  function KeepSet(names: set<string>): set<string> {
    if names == {} then {""} else names
  }

  // ------------------------------------------------------------------ stages

  function PoolsSaved(t: CatalogTables, c: Catalog, now: int): CatalogTables {
    PoolsDeleted(t.(pools := UpsertAll(t.pools, PoolRows(c.pools), now)), KeepSet(KeysOf(PoolRows(c.pools))), now)
      .(poolMembers := SpanRows(c.pools))
  }

  function NodesSaved(t: CatalogTables, c: Catalog, now: int): CatalogTables {
    NodesDeleted(t.(nodes := UpsertAll(t.nodes, NodeRows(c.nodes), now)), KeepSet(KeysOf(NodeRows(c.nodes))))
  }

  function GroupsSaved(t: CatalogTables, c: Catalog, now: int): CatalogTables {
    GroupsDeleted(t.(groups := UpsertAll(t.groups, GroupRows(c.groups), now)), KeepSet(KeysOf(GroupRows(c.groups))))
  }

  function UsersSaved(t: CatalogTables, c: Catalog, now: int): CatalogTables {
    UsersDeleted(t.(users := UpsertAll(t.users, UserRows(c.users), now)), KeepSet(KeysOf(UserRows(c.users))))
      .(groupMembers := MembershipRows(c.users))
  }

  function KeySet(rules: seq<QuotaRule>): set<string> {
    set r <- rules :: Key(r)
  }

  function RulesSaved(t: CatalogTables, c: Catalog, now: int): CatalogTables {
    RulesDeleted(t.(rules := UpsertAll(t.rules, RuleRows(c.quotas), now)), KeepSet(KeySet(c.quotas)))
  }

  /** The tables after a save that succeeds. */
  function Saved(t: CatalogTables, c: Catalog, now: int): CatalogTables {
    RulesSaved(UsersSaved(GroupsSaved(NodesSaved(PoolsSaved(t, c, now), c, now), c, now), c, now), c, now)
  }

  // ------------------------------------------------------- what can be stored

  ghost predicate PoolsStorable(c: Catalog) {
    forall i | 0 <= i < |c.pools| :: PoolCheck(c.pools[i].name, PoolRowOf(c.pools[i], i))
  }

  /** The schema accepts every value of a catalog that is otherwise valid. */
  ghost predicate Storable(c: Catalog) {
    && PoolsStorable(c)
    && (forall g <- c.groups :: IsSlug(g.name))
    && (forall r <- c.quotas :: r.maxSlots <= MAX_INT)
  }

  lemma {:induction false} WithSpansKeys(m: map<(string, string), int>, p: Pool, n: nat)
    requires n <= |p.spans|
    ensures forall k :: k in WithSpans(m, p, n) <==> k in m || (k.0 == p.name && k.1 in p.spans[..n])
  {
    if n > 0 {
      WithSpansKeys(m, p, n - 1);
      assert p.spans[..n] == p.spans[..n - 1] + [p.spans[n - 1]];
    }
  }

  ghost predicate SpansAs(pools: seq<Pool>, k: (string, string)) {
    exists p <- pools :: p.name == k.0 && k.1 in p.spans
  }

  lemma {:induction false} SpanRowsKeys(pools: seq<Pool>)
    ensures forall k {:trigger k in SpanRows(pools)} {:trigger SpansAs(pools, k)} :: k in SpanRows(pools) <==> SpansAs(pools, k)
  {
    if pools != [] {
      var rest, p := pools[..|pools| - 1], pools[|pools| - 1];
      SpanRowsKeys(rest);
      WithSpansKeys(SpanRows(rest), p, |p.spans|);
      assert pools == rest + [p] && p.spans[..|p.spans|] == p.spans;
      forall k ensures SpansAs(pools, k) <==> SpansAs(rest, k) || (k.0 == p.name && k.1 in p.spans) {
        if SpansAs(rest, k) {
          var q :| q in rest && q.name == k.0 && k.1 in q.spans;
          assert q in pools;
        }
      }
    }
  }

  lemma {:induction false} WithMembershipsAre(m: set<(string, string)>, u: User, n: nat)
    requires n <= |u.groups|
    ensures forall k :: k in WithMemberships(m, u, n) <==> k in m || (k.1 == u.name && k.0 in u.groups[..n])
  {
    if n > 0 {
      WithMembershipsAre(m, u, n - 1);
      assert u.groups[..n] == u.groups[..n - 1] + [u.groups[n - 1]];
    }
  }

  ghost predicate BelongsAs(users: seq<User>, k: (string, string)) {
    exists u <- users :: u.name == k.1 && k.0 in u.groups
  }

  lemma {:induction false} MembershipRowsAre(users: seq<User>)
    ensures forall k {:trigger k in MembershipRows(users)} {:trigger BelongsAs(users, k)} :: k in MembershipRows(users) <==> BelongsAs(users, k)
  {
    if users != [] {
      var rest, u := users[..|users| - 1], users[|users| - 1];
      MembershipRowsAre(rest);
      WithMembershipsAre(MembershipRows(rest), u, |u.groups|);
      assert users == rest + [u] && u.groups[..|u.groups|] == u.groups;
      forall k ensures BelongsAs(users, k) <==> BelongsAs(rest, k) || (k.1 == u.name && k.0 in u.groups) {
        if BelongsAs(rest, k) {
          var v :| v in rest && v.name == k.1 && k.0 in v.groups;
          assert v in users;
        }
      }
    }
  }

  /** A row not yet inserted: the pool's own, and not before this span. */
  lemma NextSpanIsNew(pools: seq<Pool>, i: nat, n: nat)
    requires i < |pools| && n < |pools[i].spans| && UniqueBy(pools, NameOfPool) && Distinct(pools[i].spans)
    ensures (pools[i].name, pools[i].spans[n]) !in WithSpans(SpanRows(pools[..i]), pools[i], n)
  {
    SpanRowsKeys(pools[..i]);
    WithSpansKeys(SpanRows(pools[..i]), pools[i], n);
    var k := (pools[i].name, pools[i].spans[n]);
    forall p <- pools[..i] ensures p.name != k.0 {
      var j :| 0 <= j < i && pools[..i][j] == p;
      assert NameOfPool(pools[j]) != NameOfPool(pools[i]);
    }
    assert !SpansAs(pools[..i], k);
  }

  lemma NextMembershipIsNew(users: seq<User>, i: nat, n: nat)
    requires i < |users| && n < |users[i].groups| && UniqueBy(users, NameOfUser) && Distinct(users[i].groups)
    ensures (users[i].groups[n], users[i].name) !in WithMemberships(MembershipRows(users[..i]), users[i], n)
  {
    MembershipRowsAre(users[..i]);
    WithMembershipsAre(MembershipRows(users[..i]), users[i], n);
    var k := (users[i].groups[n], users[i].name);
    forall u <- users[..i] ensures u.name != k.1 {
      var j :| 0 <= j < i && users[..i][j] == u;
      assert NameOfUser(users[j]) != NameOfUser(users[i]);
    }
    assert !BelongsAs(users[..i], k);
  }

  // ------------------------------------------------------------------ saving

  /** Keeping the rows just upserted leaves exactly them: no stored name is empty. */
  lemma KeptKeys<T(!new)>(t: Table<string, T>, rows: seq<(string, T)>, now: int)
    requires UniqueKeys(rows) && "" !in t
    ensures Keep(UpsertAll(t, rows, now), KeepSet(KeysOf(rows))) == Keep(UpsertAll(t, rows, now), KeysOf(rows))
    ensures Keep(UpsertAll(t, rows, now), KeepSet(KeysOf(rows))).Keys == KeysOf(rows)
  {
    UpsertAllHolds(t, rows, now);
  }

  lemma PoolRowsUnique(c: Catalog)
    requires UniqueBy(c.pools, NameOfPool)
    ensures UniqueKeys(PoolRows(c.pools))
    ensures forall name :: name in KeysOf(PoolRows(c.pools)) <==> exists p <- c.pools :: p.name == name
  {
    forall i, j | 0 <= i < j < |c.pools| ensures PoolRows(c.pools)[i].0 != PoolRows(c.pools)[j].0 {
      assert NameOfPool(c.pools[i]) != NameOfPool(c.pools[j]);
    }
    forall p <- c.pools ensures p.name in KeysOf(PoolRows(c.pools)) {
      var i :| 0 <= i < |c.pools| && c.pools[i] == p;
      assert PoolRows(c.pools)[i] in PoolRows(c.pools);
    }
  }

  lemma SavedPoolKeys(t: CatalogTables, c: Catalog, now: int)
    requires PoolsHold(t) && UniqueBy(c.pools, NameOfPool)
    ensures PoolsSaved(t, c, now).pools.Keys == KeysOf(PoolRows(c.pools))
  {
    PoolRowsUnique(c);
    KeptKeys(t.pools, PoolRows(c.pools), now);
  }

  /** In a valid catalog, a span names two different pools. */
  lemma SpanIsFine(c: Catalog, i: nat, n: nat)
    requires Valid(c) && i < |c.pools| && n < |c.pools[i].spans|
    ensures c.pools[i].name in KeysOf(PoolRows(c.pools)) && c.pools[i].spans[n] in KeysOf(PoolRows(c.pools))
    ensures c.pools[i].name != c.pools[i].spans[n]
    ensures (c.pools[i].name, c.pools[i].spans[n]) !in WithSpans(SpanRows(c.pools[..i]), c.pools[i], n)
  {
    var p := c.pools[i];
    assert p in c.pools && PoolOk(c.pools, p) && p.spans[n] in p.spans;
    PoolRowsUnique(c);
    NextSpanIsNew(c.pools, i, n);
    var m := FindPool(c.pools, p.spans[n]).value;
    if m.name == p.name {
      KeysIdentify(c.pools, NameOfPool, m, p);
    }
  }

  /** Save the pools and their spans. */
  method SavePools(db: Database, c: Catalog, now: int) returns (ok: bool)
    requires db.Valid()
    modifies db
    ensures db.Valid()
    ensures ok ==> db.tables == PoolsSaved(old(db.tables), c, now)
    ensures Valid(c) ==> (ok <==> PoolsStorable(c))
  {
    hide Consistent;
    hide UpsertAll;
    ok := UpsertPools(db, c, now);
    if !ok {
      return;
    }
    if Valid(c) {
      SavedPoolKeysOf(old(db.tables), c, now);
    }
    db.DeletePools(KeepSet(KeysOf(PoolRows(c.pools))), now);
    db.DeletePoolMembers();
    ok := SaveSpans(db, c);
  }

  lemma SavedPoolKeysOf(t: CatalogTables, c: Catalog, now: int)
    requires Consistent(t) && Valid(c)
    ensures PoolsSaved(t, c, now).pools.Keys == KeysOf(PoolRows(c.pools))
  {
    SavedPoolKeys(t, c, now);
  }

  method UpsertPools(db: Database, c: Catalog, now: int) returns (ok: bool)
    requires db.Valid()
    modifies db
    ensures db.Valid()
    ensures ok ==> db.tables == old(db.tables).(pools := UpsertAll(old(db.tables).pools, PoolRows(c.pools), now))
    ensures ok <==> PoolsStorable(c)
  {
    hide Consistent;
    hide PoolCheck;
    hide PoolRowOf;
    var rows := PoolRows(c.pools);
    assert rows[..0] == [];
    for i := 0 to |rows|
      invariant db.Valid() && db.tables == old(db.tables).(pools := UpsertAll(old(db.tables).pools, rows[..i], now))
      invariant forall j | 0 <= j < i :: PoolCheck(c.pools[j].name, PoolRowOf(c.pools[j], j))
    {
      UpsertAllNext(old(db.tables).pools, rows, i, now);
      ok := db.UpsertPool(rows[i].0, rows[i].1, now);
      if !ok {
        return;
      }
    }
    assert rows[..|rows|] == rows;
    return true;
  }

  method SaveSpans(db: Database, c: Catalog) returns (ok: bool)
    requires db.Valid() && db.tables.poolMembers == map[]
    modifies db
    ensures db.Valid()
    ensures ok ==> db.tables == old(db.tables).(poolMembers := SpanRows(c.pools))
    ensures Valid(c) && old(db.tables).pools.Keys == KeysOf(PoolRows(c.pools)) ==> ok
  {
    hide Consistent;
    hide Valid;
    ghost var fine := Valid(c) && db.tables.pools.Keys == KeysOf(PoolRows(c.pools));
    assert c.pools[..0] == [];
    for i := 0 to |c.pools|
      invariant db.Valid() && db.tables == old(db.tables).(poolMembers := SpanRows(c.pools[..i]))
    {
      var p := c.pools[i];
      for n := 0 to |p.spans|
        invariant db.Valid() && db.tables == old(db.tables).(poolMembers := WithSpans(SpanRows(c.pools[..i]), p, n))
      {
        if fine {
          SpanIsFine(c, i, n);
        }
        ok := db.InsertPoolMember(p.name, p.spans[n], n);
        if !ok {
          return;
        }
      }
      assert c.pools[..i + 1][..i] == c.pools[..i];
    }
    assert c.pools[..|c.pools|] == c.pools;
    return true;
  }

  lemma NodeRowsUnique(c: Catalog)
    requires UniqueBy(c.nodes, NameOfNode)
    ensures UniqueKeys(NodeRows(c.nodes))
    ensures forall name :: name in KeysOf(NodeRows(c.nodes)) <==> Lists(c.nodes, NameOfNode, name)
  {
    forall i, j | 0 <= i < j < |c.nodes| ensures NodeRows(c.nodes)[i].0 != NodeRows(c.nodes)[j].0 {
      assert NameOfNode(c.nodes[i]) != NameOfNode(c.nodes[j]);
    }
    forall n <- c.nodes ensures n.name in KeysOf(NodeRows(c.nodes)) {
      var i :| 0 <= i < |c.nodes| && c.nodes[i] == n;
      assert NodeRows(c.nodes)[i] in NodeRows(c.nodes);
    }
    forall name | name in KeysOf(NodeRows(c.nodes)) ensures Lists(c.nodes, NameOfNode, name) {
      var i :| 0 <= i < |c.nodes| && NodeRows(c.nodes)[i].0 == name;
      assert NameOfNode(c.nodes[i]) == name;
    }
  }

  lemma NodeIsFine(c: Catalog, i: nat)
    requires Valid(c) && i < |c.nodes|
    ensures c.nodes[i].name != "" && Refers(NullIfEmpty(c.nodes[i].pool), KeysOf(PoolRows(c.pools)))
  {
    assert c.nodes[i] in c.nodes && NodeOk(c.pools, c.nodes[i]);
    PoolRowsUnique(c);
  }

  method SaveNodes(db: Database, c: Catalog, now: int) returns (ok: bool)
    requires db.Valid()
    modifies db
    ensures db.Valid()
    ensures ok ==> db.tables == NodesSaved(old(db.tables), c, now)
    ensures Valid(c) && old(db.tables).pools.Keys == KeysOf(PoolRows(c.pools)) ==> ok
  {
    hide Consistent;
    hide Valid;
    hide Upsert;
    var rows := NodeRows(c.nodes);
    ghost var fine := Valid(c) && db.tables.pools.Keys == KeysOf(PoolRows(c.pools));
    assert rows[..0] == [];
    for i := 0 to |rows|
      invariant db.Valid() && db.tables == old(db.tables).(nodes := UpsertAll(old(db.tables).nodes, rows[..i], now))
    {
      if fine {
        NodeIsFine(c, i);
      }
      UpsertAllNext(old(db.tables).nodes, rows, i, now);
      ok := db.UpsertNode(rows[i].0, rows[i].1, now);
      if !ok {
        return;
      }
    }
    assert rows[..|rows|] == rows;
    db.DeleteNodes(KeepSet(KeysOf(rows)));
    return true;
  }

  lemma GroupRowsUnique(c: Catalog)
    requires UniqueBy(c.groups, NameOfGroup)
    ensures UniqueKeys(GroupRows(c.groups))
    ensures forall name :: name in KeysOf(GroupRows(c.groups)) <==> Lists(c.groups, NameOfGroup, name)
  {
    forall i, j | 0 <= i < j < |c.groups| ensures GroupRows(c.groups)[i].0 != GroupRows(c.groups)[j].0 {
      assert NameOfGroup(c.groups[i]) != NameOfGroup(c.groups[j]);
    }
    forall g <- c.groups ensures g.name in KeysOf(GroupRows(c.groups)) {
      var i :| 0 <= i < |c.groups| && c.groups[i] == g;
      assert GroupRows(c.groups)[i] in GroupRows(c.groups);
    }
    forall name | name in KeysOf(GroupRows(c.groups)) ensures Lists(c.groups, NameOfGroup, name) {
      var i :| 0 <= i < |c.groups| && GroupRows(c.groups)[i].0 == name;
      assert NameOfGroup(c.groups[i]) == name;
    }
  }

  method SaveGroups(db: Database, c: Catalog, now: int) returns (ok: bool)
    requires db.Valid()
    modifies db
    ensures db.Valid()
    ensures ok ==> db.tables == GroupsSaved(old(db.tables), c, now)
    ensures ok <==> forall g <- c.groups :: IsSlug(g.name)
  {
    hide Consistent;
    hide Upsert;
    hide IsSlug;
    var rows := GroupRows(c.groups);
    assert rows[..0] == [];
    for i := 0 to |rows|
      invariant db.Valid() && db.tables == old(db.tables).(groups := UpsertAll(old(db.tables).groups, rows[..i], now))
      invariant forall j | 0 <= j < i :: IsSlug(c.groups[j].name)
    {
      UpsertAllNext(old(db.tables).groups, rows, i, now);
      ok := db.UpsertGroup(rows[i].0, rows[i].1, now);
      if !ok {
        assert c.groups[i] in c.groups;
        return;
      }
    }
    assert rows[..|rows|] == rows;
    db.DeleteGroups(KeepSet(KeysOf(rows)));
    return true;
  }

  lemma UserRowsUnique(c: Catalog)
    requires UniqueBy(c.users, NameOfUser)
    ensures UniqueKeys(UserRows(c.users))
    ensures forall name :: name in KeysOf(UserRows(c.users)) <==> Lists(c.users, NameOfUser, name)
  {
    forall i, j | 0 <= i < j < |c.users| ensures UserRows(c.users)[i].0 != UserRows(c.users)[j].0 {
      assert NameOfUser(c.users[i]) != NameOfUser(c.users[j]);
    }
    forall u <- c.users ensures u.name in KeysOf(UserRows(c.users)) {
      var i :| 0 <= i < |c.users| && c.users[i] == u;
      assert UserRows(c.users)[i] in UserRows(c.users);
    }
    forall name | name in KeysOf(UserRows(c.users)) ensures Lists(c.users, NameOfUser, name) {
      var i :| 0 <= i < |c.users| && UserRows(c.users)[i].0 == name;
      assert NameOfUser(c.users[i]) == name;
    }
  }

  lemma UserIsFine(c: Catalog, i: nat)
    requires Valid(c) && i < |c.users|
    ensures c.users[i].name != "" && c.users[i].name in KeysOf(UserRows(c.users))
    ensures forall n | 0 <= n < |c.users[i].groups| ::
              && c.users[i].groups[n] in KeysOf(GroupRows(c.groups))
              && (c.users[i].groups[n], c.users[i].name) !in WithMemberships(MembershipRows(c.users[..i]), c.users[i], n)
  {
    assert c.users[i] in c.users && UserOk(c.groups, c.users[i]) && NameOfUser(c.users[i]) == c.users[i].name;
    UserRowsUnique(c);
    GroupRowsUnique(c);
    forall n | 0 <= n < |c.users[i].groups|
      ensures c.users[i].groups[n] in KeysOf(GroupRows(c.groups))
      ensures (c.users[i].groups[n], c.users[i].name) !in WithMemberships(MembershipRows(c.users[..i]), c.users[i], n)
    {
      NextMembershipIsNew(c.users, i, n);
      assert c.users[i].groups[n] in c.users[i].groups;
    }
  }

  /** Save the users and their memberships. */
  method SaveUsers(db: Database, c: Catalog, now: int) returns (ok: bool)
    requires db.Valid()
    modifies db
    ensures db.Valid()
    ensures ok ==> db.tables == UsersSaved(old(db.tables), c, now)
    ensures Valid(c) && old(db.tables).groups.Keys == KeysOf(GroupRows(c.groups)) ==> ok
  {
    hide Consistent;
    hide Valid;
    hide UpsertAll;
    ok := UpsertUsers(db, c, now);
    if !ok {
      return;
    }
    if Valid(c) {
      SavedUserKeys(old(db.tables), c, now);
    }
    db.DeleteUsers(KeepSet(KeysOf(UserRows(c.users))));
    db.DeleteGroupMembers();
    ok := SaveMemberships(db, c);
  }

  lemma SavedUserKeys(t: CatalogTables, c: Catalog, now: int)
    requires Consistent(t) && Valid(c)
    ensures UsersSaved(t, c, now).users.Keys == KeysOf(UserRows(c.users))
  {
    UserRowsUnique(c);
    KeptKeys(t.users, UserRows(c.users), now);
  }

  method UpsertUsers(db: Database, c: Catalog, now: int) returns (ok: bool)
    requires db.Valid()
    modifies db
    ensures db.Valid()
    ensures ok ==> db.tables == old(db.tables).(users := UpsertAll(old(db.tables).users, UserRows(c.users), now))
    ensures Valid(c) ==> ok
  {
    hide Consistent;
    hide Valid;
    hide Upsert;
    var rows := UserRows(c.users);
    assert rows[..0] == [];
    for i := 0 to |rows|
      invariant db.Valid() && db.tables == old(db.tables).(users := UpsertAll(old(db.tables).users, rows[..i], now))
    {
      if Valid(c) {
        UserIsFine(c, i);
      }
      UpsertAllNext(old(db.tables).users, rows, i, now);
      ok := db.UpsertUser(rows[i].0, rows[i].1, now);
      if !ok {
        return;
      }
    }
    assert rows[..|rows|] == rows;
    return true;
  }

  method SaveMemberships(db: Database, c: Catalog) returns (ok: bool)
    requires db.Valid() && db.tables.groupMembers == {}
    modifies db
    ensures db.Valid()
    ensures ok ==> db.tables == old(db.tables).(groupMembers := MembershipRows(c.users))
    ensures (Valid(c) && old(db.tables).groups.Keys == KeysOf(GroupRows(c.groups)) &&
             old(db.tables).users.Keys == KeysOf(UserRows(c.users))) ==> ok
  {
    hide Consistent;
    hide Valid;
    hide WithMemberships;
    assert c.users[..0] == [];
    for i := 0 to |c.users|
      invariant db.Valid() && db.tables == old(db.tables).(groupMembers := MembershipRows(c.users[..i]))
    {
      ok := SaveMembershipsOf(db, c, i);
      if !ok {
        return;
      }
      assert c.users[..i + 1][..i] == c.users[..i];
    }
    assert c.users[..|c.users|] == c.users;
    return true;
  }

  method SaveMembershipsOf(db: Database, c: Catalog, i: nat) returns (ok: bool)
    requires db.Valid() && i < |c.users| && db.tables.groupMembers == MembershipRows(c.users[..i])
    modifies db
    ensures db.Valid()
    ensures ok ==> db.tables == old(db.tables).(groupMembers := WithMemberships(MembershipRows(c.users[..i]), c.users[i], |c.users[i].groups|))
    ensures (Valid(c) && old(db.tables).groups.Keys == KeysOf(GroupRows(c.groups)) &&
             old(db.tables).users.Keys == KeysOf(UserRows(c.users))) ==> ok
  {
    hide Consistent;
    hide Valid;
    hide MembershipRows;
    hide GroupRows;
    hide UserRows;
    var u := c.users[i];
    if Valid(c) {
      UserIsFine(c, i);
    }
    for n := 0 to |u.groups|
      invariant db.Valid() && db.tables == old(db.tables).(groupMembers := WithMemberships(MembershipRows(c.users[..i]), u, n))
    {
      ok := db.InsertGroupMember(u.groups[n], u.name);
      if !ok {
        return;
      }
    }
    return true;
  }

  /** The tables list what the rules of the catalog may name. */
  ghost predicate Named(t: CatalogTables, c: Catalog) {
    && t.pools.Keys == KeysOf(PoolRows(c.pools))
    && t.nodes.Keys == KeysOf(NodeRows(c.nodes))
    && t.groups.Keys == KeysOf(GroupRows(c.groups))
    && t.users.Keys == KeysOf(UserRows(c.users))
  }

  lemma RuleIsFine(t: CatalogTables, c: Catalog, i: nat)
    requires Valid(c) && Named(t, c) && i < |c.quotas|
    ensures RuleRefers(t, IdOf(c.quotas[i])) && RuleIdCheck(IdOf(c.quotas[i])) && 0 <= c.quotas[i].maxSlots
  {
    assert c.quotas[i] in c.quotas && RuleOk(c, c.quotas[i]);
    PoolRowsUnique(c);
    NodeRowsUnique(c);
    GroupRowsUnique(c);
    UserRowsUnique(c);
  }

  method SaveRules(db: Database, c: Catalog, now: int) returns (ok: bool)
    requires db.Valid()
    modifies db
    ensures db.Valid()
    ensures ok ==> db.tables == RulesSaved(old(db.tables), c, now)
    ensures Valid(c) && Named(old(db.tables), c) ==> (ok <==> forall r <- c.quotas :: r.maxSlots <= MAX_INT)
  {
    hide Consistent;
    hide Valid;
    hide Upsert;
    hide RuleRefers;
    hide RuleIdCheck;
    var rows := RuleRows(c.quotas);
    ghost var fine := Valid(c) && Named(db.tables, c);
    assert rows[..0] == [];
    for i := 0 to |rows|
      invariant db.Valid() && db.tables == old(db.tables).(rules := UpsertAll(old(db.tables).rules, rows[..i], now))
      invariant forall j | 0 <= j < i :: c.quotas[j].maxSlots <= MAX_INT
    {
      if fine {
        RuleIsFine(db.tables, c, i);
      }
      UpsertAllNext(old(db.tables).rules, rows, i, now);
      ok := db.UpsertRule(rows[i].0, rows[i].1, now);
      if !ok {
        assert c.quotas[i] in c.quotas;
        return;
      }
    }
    assert rows[..|rows|] == rows;
    db.DeleteRules(KeepSet(KeySet(c.quotas)));
    return true;
  }

  lemma StagesNamed(t: CatalogTables, c: Catalog, now: int)
    requires Consistent(t) && Valid(c)
    ensures var t1 := PoolsSaved(t, c, now);
      var t2 := NodesSaved(t1, c, now);
      var t3 := GroupsSaved(t2, c, now);
      && t1.pools.Keys == KeysOf(PoolRows(c.pools))
      && t3.groups.Keys == KeysOf(GroupRows(c.groups))
      && Named(UsersSaved(t3, c, now), c)
  {
    SavedPoolKeys(t, c, now);
    NodeRowsUnique(c);
    GroupRowsUnique(c);
    UserRowsUnique(c);
    var t1 := PoolsSaved(t, c, now);
    assert t1.nodes.Keys == t.nodes.Keys;
    KeptKeys(t1.nodes, NodeRows(c.nodes), now);
    KeptKeys(t.groups, GroupRows(c.groups), now);
    KeptKeys(t.users, UserRows(c.users), now);
  }

  /** Upsert every row in one transaction and delete what the catalog no longer has. */
  method SaveCatalogTx(db: Database, c: Catalog, now: int) returns (ok: bool)
    requires db.Valid()
    modifies db
    ensures db.Valid()
    ensures ok ==> db.tables == Saved(old(db.tables), c, now)
    ensures Valid(c) ==> (ok <==> Storable(c))
  {
    hide Consistent;
    hide Valid;
    hide PoolsSaved;
    hide NodesSaved;
    hide GroupsSaved;
    hide UsersSaved;
    hide RulesSaved;
    if Valid(c) {
      StagesNamed(db.tables, c, now);
    }
    ok := SavePools(db, c, now);
    if !ok {
      return;
    }
    ok := SaveNodes(db, c, now);
    if !ok {
      return;
    }
    ok := SaveGroups(db, c, now);
    if !ok {
      return;
    }
    ok := SaveUsers(db, c, now);
    if !ok {
      return;
    }
    ok := SaveRules(db, c, now);
  }

  /** Replace every catalog row in one transaction: all of it, or nothing.
      commits says whether the commit succeeds. */
  method SaveCatalog(db: Database, c: Catalog, now: int, commits: bool) returns (ok: bool)
    requires db.Valid()
    modifies db
    ensures db.Valid()
    ensures db.tables == if ok then Saved(old(db.tables), c, now) else old(db.tables)
    ensures Valid(c) ==> (ok <==> Storable(c) && commits)
  {
    var begun := db.tables;
    ok := SaveCatalogTx(db, c, now);
    if !ok {
      db.tables := begun;
      return false;
    }
    if !commits {
      db.tables := begun;
      return false;
    }
    return true;
  }
}
