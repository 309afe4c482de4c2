/** The catalog's tables, their constraints, and what each statement of a save does to them. */
module Schema {
  import opened Wrappers
  import opened Catalogs
  import opened RuleKeys
  import opened Tables

  // -------------------------------------------------------------------- rows

  // NULLs are None. Arrays and the constraints object are stored as values.
  datatype PoolRow = PoolRow(
    description: string,
    runtime: Option<Runtime>,
    taskDriver: Option<string>,
    image: string,
    command: seq<string>,
    runnerCommand: seq<string>,
    runnerUrl: string,
    dockerNetwork: string,
    cacheDir: string,
    hostVolume: string,
    constraints: map<string, string>,
    position: int)

  datatype GroupRow = GroupRow(description: string, position: int)

  datatype UserRow = UserRow(displayName: string, email: string)

  // The unique columns of a rule; nulls are not distinct.
  datatype RuleId = RuleId(
    subject: SubjectKind,
    user: Option<string>,
    group: Option<string>,
    together: bool,
    scope: ScopeKind,
    pool: Option<string>,
    node: Option<string>)

  datatype RuleRow = RuleRow(maxSlots: int, note: string)

  datatype CatalogTables = CatalogTables(
    pools: Table<string, PoolRow>,
    poolMembers: map<(string, string), int>,
    nodes: Table<string, Option<string>>,
    groups: Table<string, GroupRow>,
    users: Table<string, UserRow>,
    groupMembers: set<(string, string)>,
    rules: Table<RuleId, RuleRow>)

  // ------------------------------------------------------------- constraints

  predicate LowerOrDigit(c: char) {
    'a' <= c <= 'z' || '0' <= c <= '9'
  }

  /** ^[a-z0-9][a-z0-9._-]*$ */
  predicate IsSlug(s: string) {
    s != "" && LowerOrDigit(s[0]) && forall c <- s :: LowerOrDigit(c) || c in "._-"
  }

  const DRIVERS := {"exec", "raw_exec", "docker", "podman"}

  const MAX_INT := 0x7fff_ffff

  predicate RuntimeColumn(r: Option<Runtime>) {
    r.Some? ==> r.value.Process? || r.value.Container?
  }

  predicate DriverColumn(d: Option<string>) {
    d.Some? ==> d.value in DRIVERS
  }

  predicate PoolCheck(name: string, row: PoolRow) {
    IsSlug(name) && RuntimeColumn(row.runtime) && DriverColumn(row.taskDriver)
  }

  /** The kinds are of the enumerations, and each name is there exactly when its kind asks for one. */
  predicate RuleIdCheck(id: RuleId) {
    && !id.subject.OtherSubject? && !id.scope.OtherScope?
    && (id.subject.OneUser? <==> id.user.Some?)
    && (id.subject.OneGroup? <==> id.group.Some?)
    && (id.subject.OneUser? ==> !id.together)
    && (id.scope.InPool? <==> id.pool.Some?)
    && (id.scope.OnNode? <==> id.node.Some?)
  }

  predicate RuleCheck(id: RuleId, row: RuleRow) {
    RuleIdCheck(id) && 0 <= row.maxSlots <= MAX_INT
  }

  predicate Refers(name: Option<string>, names: set<string>) {
    name.Some? ==> name.value in names
  }

  predicate RuleRefers(t: CatalogTables, id: RuleId) {
    && Refers(id.user, t.users.Keys)
    && Refers(id.group, t.groups.Keys)
    && Refers(id.pool, t.pools.Keys)
    && Refers(id.node, t.nodes.Keys)
  }

  ghost predicate PoolsHold(t: CatalogTables) {
    && (forall name <- t.pools :: PoolCheck(name, t.pools[name].data))
    && (forall m <- t.poolMembers :: m.0 in t.pools && m.1 in t.pools && m.0 != m.1)
  }

  ghost predicate NodesHold(t: CatalogTables) {
    forall name <- t.nodes :: name != "" && Refers(t.nodes[name].data, t.pools.Keys)
  }

  ghost predicate PeopleHold(t: CatalogTables) {
    && (forall name <- t.groups :: IsSlug(name))
    && (forall name <- t.users :: name != "")
    && (forall m <- t.groupMembers :: m.0 in t.groups && m.1 in t.users)
  }

  ghost predicate RulesHold(t: CatalogTables) {
    forall id <- t.rules :: RuleCheck(id, t.rules[id].data) && RuleRefers(t, id)
  }

  /** Every CHECK and every foreign key holds; primary keys and the unique
      constraint hold by the tables' types. */
  ghost predicate Consistent(t: CatalogTables) {
    PoolsHold(t) && NodesHold(t) && PeopleHold(t) && RulesHold(t)
  }

  /** The constraints on pools, one by one. */
  lemma PoolsHoldMeans(t: CatalogTables)
    ensures PoolsHold(t) <==>
      && (forall name <- t.pools :: PoolIsSpelled(name, t.pools[name].data))
      && (forall m <- t.poolMembers :: m.0 in t.pools && m.1 in t.pools && m.0 != m.1)
  {
    hide PoolCheck;
    hide Spelled;
    forall name <- t.pools ensures PoolCheck(name, t.pools[name].data) <==> PoolIsSpelled(name, t.pools[name].data) {
      PoolCheckMeans(name, t.pools[name].data);
    }
  }

  predicate PoolIsSpelled(name: string, row: PoolRow) {
    && Spelled(name)
    && row.runtime in {None, Some(Process), Some(Container)}
    && row.taskDriver in {None, Some("exec"), Some("raw_exec"), Some("docker"), Some("podman")}
  }

  lemma PoolCheckMeans(name: string, row: PoolRow)
    ensures PoolCheck(name, row) <==> PoolIsSpelled(name, row)
  {
    hide Spelled;
    hide IsSlug;
    SlugIsSpelled(name);
    assert DriverColumn(row.taskDriver) <==> row.taskDriver in {None, Some("exec"), Some("raw_exec"), Some("docker"), Some("podman")} by {
      if row.taskDriver.Some? {
        var d := row.taskDriver.value;
        assert d in DRIVERS <==> d == "exec" || d == "raw_exec" || d == "docker" || d == "podman";
      }
    }
    assert RuntimeColumn(row.runtime) <==> row.runtime in {None, Some(Process), Some(Container)} by {
      if row.runtime.Some? {
        var r := row.runtime.value;
        assert r.Process? || r.Container? <==> r == Process || r == Container;
      }
    }
  }

  lemma SlugIsSpelled(name: string)
    ensures IsSlug(name) <==> Spelled(name)
  {
  }

  /** Those on nodes, groups, users and memberships. */
  lemma PeopleHoldMeans(t: CatalogTables)
    ensures NodesHold(t) && PeopleHold(t) <==>
      && (forall name <- t.nodes :: name != "" && (t.nodes[name].data != None ==> t.nodes[name].data.value in t.pools))
      && (forall name <- t.groups :: Spelled(name))
      && (forall name <- t.users :: name != "")
      && (forall m <- t.groupMembers :: m.0 in t.groups && m.1 in t.users)
  {
    hide IsSlug;
    hide Spelled;
    forall name ensures IsSlug(name) <==> Spelled(name) {
      SlugIsSpelled(name);
    }
  }

  /** Those on rules: known kinds, each name there exactly where its kind asks
      for one and referring to a row, and a limit the column holds. */
  lemma RulesHoldMeans(t: CatalogTables)
    ensures RulesHold(t) <==> forall id <- t.rules ::
      && id.subject in {OneUser, OneGroup, Everyone} && id.scope in {OnNode, InPool, Anywhere}
      && (if id.subject == OneUser then id.user != None && id.user.value in t.users && !id.together else id.user == None)
      && (if id.subject == OneGroup then id.group != None && id.group.value in t.groups else id.group == None)
      && (if id.scope == InPool then id.pool != None && id.pool.value in t.pools else id.pool == None)
      && (if id.scope == OnNode then id.node != None && id.node.value in t.nodes else id.node == None)
      && 0 <= t.rules[id].data.maxSlots < 0x8000_0000
  {
  }

  /** Lower-case letters, digits, '.', '_' and '-', beginning with a letter or digit. */
  predicate Spelled(name: string) {
    && name != "" && ('a' <= name[0] <= 'z' || '0' <= name[0] <= '9')
    && forall c <- name :: 'a' <= c <= 'z' || '0' <= c <= '9' || c == '.' || c == '_' || c == '-'
  }

  // -------------------------------------------------------------- statements

  /** Deleting pools takes their memberships and rules along, and unassigns their nodes. */
  function PoolsDeleted(t: CatalogTables, keep: set<string>, now: int): CatalogTables {
    t.(pools := Keep(t.pools, keep),
       poolMembers := map m | m in t.poolMembers && m.0 in keep && m.1 in keep :: t.poolMembers[m],
       nodes := map n | n in t.nodes :: if Refers(t.nodes[n].data, keep) then t.nodes[n] else Stamped(None, t.nodes[n].created, now),
       rules := map id | id in t.rules && Refers(id.pool, keep) :: t.rules[id])
  }

  function NodesDeleted(t: CatalogTables, keep: set<string>): CatalogTables {
    t.(nodes := Keep(t.nodes, keep), rules := map id | id in t.rules && Refers(id.node, keep) :: t.rules[id])
  }

  function GroupsDeleted(t: CatalogTables, keep: set<string>): CatalogTables {
    t.(groups := Keep(t.groups, keep),
       groupMembers := (set m | m in t.groupMembers && m.0 in keep),
       rules := map id | id in t.rules && Refers(id.group, keep) :: t.rules[id])
  }

  function UsersDeleted(t: CatalogTables, keep: set<string>): CatalogTables {
    t.(users := Keep(t.users, keep),
       groupMembers := (set m | m in t.groupMembers && m.1 in keep),
       rules := map id | id in t.rules && Refers(id.user, keep) :: t.rules[id])
  }

  function Optional(name: Option<string>): string {
    if name.Some? then ":" + name.value else ""
  }

  function RenderedSubject(id: RuleId): string {
    SubjectText(id.subject) + Optional(id.user) + Optional(id.group) + if id.together then TOGETHER else ""
  }

  function RenderedScope(id: RuleId): string {
    ScopeText(id.scope) + Optional(id.pool) + Optional(id.node)
  }

  /** A rule's key, as the statement that deletes rules renders it from the columns. */
  function RenderedKey(id: RuleId): string {
    RenderedSubject(id) + "@" + RenderedScope(id)
  }

  function RulesDeleted(t: CatalogTables, keys: set<string>): CatalogTables {
    t.(rules := map id | id in t.rules && RenderedKey(id) in keys :: t.rules[id])
  }

  lemma PoolUpsertHolds(t: CatalogTables, name: string, row: PoolRow, now: int)
    requires Consistent(t) && PoolCheck(name, row)
    ensures Consistent(t.(pools := Upsert(t.pools, name, row, now)))
  {
  }

  lemma PoolsDeletedHolds(t: CatalogTables, keep: set<string>, now: int)
    requires Consistent(t)
    ensures Consistent(PoolsDeleted(t, keep, now))
  {
  }

  lemma NodeUpsertHolds(t: CatalogTables, name: string, pool: Option<string>, now: int)
    requires Consistent(t) && name != "" && Refers(pool, t.pools.Keys)
    ensures Consistent(t.(nodes := Upsert(t.nodes, name, pool, now)))
  {
  }

  lemma NodesDeletedHolds(t: CatalogTables, keep: set<string>)
    requires Consistent(t)
    ensures Consistent(NodesDeleted(t, keep))
  {
  }

  lemma GroupUpsertHolds(t: CatalogTables, name: string, row: GroupRow, now: int)
    requires Consistent(t) && IsSlug(name)
    ensures Consistent(t.(groups := Upsert(t.groups, name, row, now)))
  {
  }

  lemma GroupsDeletedHolds(t: CatalogTables, keep: set<string>)
    requires Consistent(t)
    ensures Consistent(GroupsDeleted(t, keep))
  {
  }

  lemma UserUpsertHolds(t: CatalogTables, name: string, row: UserRow, now: int)
    requires Consistent(t) && name != ""
    ensures Consistent(t.(users := Upsert(t.users, name, row, now)))
  {
  }

  lemma UsersDeletedHolds(t: CatalogTables, keep: set<string>)
    requires Consistent(t)
    ensures Consistent(UsersDeleted(t, keep))
  {
  }

  lemma RuleUpsertHolds(t: CatalogTables, id: RuleId, row: RuleRow, now: int)
    requires Consistent(t) && RuleCheck(id, row) && RuleRefers(t, id)
    ensures Consistent(t.(rules := Upsert(t.rules, id, row, now)))
  {
  }

  lemma RulesDeletedHolds(t: CatalogTables, keys: set<string>)
    requires Consistent(t)
    ensures Consistent(RulesDeleted(t, keys))
  {
  }

  // ---------------------------------------------------------------- database

  class Database {
    var tables: CatalogTables

    ghost predicate Valid()
      reads this
    {
      Consistent(tables)
    }

    constructor (tables: CatalogTables)
      requires Consistent(tables)
      ensures Valid() && this.tables == tables
    {
      this.tables := tables;
    }

    method UpsertPool(name: string, row: PoolRow, now: int) returns (ok: bool)
      requires Valid()
      modifies this
      ensures Valid() && ok == PoolCheck(name, row)
      ensures tables == if ok then old(tables).(pools := Upsert(old(tables).pools, name, row, now)) else old(tables)
    {
      ok := PoolCheck(name, row);
      if ok {
        PoolUpsertHolds(tables, name, row, now);
        tables := tables.(pools := Upsert(tables.pools, name, row, now));
      }
    }

    method DeletePools(keep: set<string>, now: int)
      requires Valid()
      modifies this
      ensures Valid() && tables == PoolsDeleted(old(tables), keep, now)
    {
      PoolsDeletedHolds(tables, keep, now);
      tables := PoolsDeleted(tables, keep, now);
    }

    method DeletePoolMembers()
      requires Valid()
      modifies this
      ensures Valid() && tables == old(tables).(poolMembers := map[])
    {
      tables := tables.(poolMembers := map[]);
    }

    method InsertPoolMember(pool: string, member: string, position: int) returns (ok: bool)
      requires Valid()
      modifies this
      ensures Valid()
      ensures ok <==> pool in old(tables).pools && member in old(tables).pools && pool != member && (pool, member) !in old(tables).poolMembers
      ensures tables == if ok then old(tables).(poolMembers := old(tables).poolMembers[(pool, member) := position]) else old(tables)
    {
      ok := pool in tables.pools && member in tables.pools && pool != member && (pool, member) !in tables.poolMembers;
      if ok {
        tables := tables.(poolMembers := tables.poolMembers[(pool, member) := position]);
      }
    }

    method UpsertNode(name: string, pool: Option<string>, now: int) returns (ok: bool)
      requires Valid()
      modifies this
      ensures Valid() && ok == (name != "" && Refers(pool, old(tables).pools.Keys))
      ensures tables == if ok then old(tables).(nodes := Upsert(old(tables).nodes, name, pool, now)) else old(tables)
    {
      ok := name != "" && Refers(pool, tables.pools.Keys);
      if ok {
        NodeUpsertHolds(tables, name, pool, now);
        tables := tables.(nodes := Upsert(tables.nodes, name, pool, now));
      }
    }

    method DeleteNodes(keep: set<string>)
      requires Valid()
      modifies this
      ensures Valid() && tables == NodesDeleted(old(tables), keep)
    {
      NodesDeletedHolds(tables, keep);
      tables := NodesDeleted(tables, keep);
    }

    method UpsertGroup(name: string, row: GroupRow, now: int) returns (ok: bool)
      requires Valid()
      modifies this
      ensures Valid() && ok == IsSlug(name)
      ensures tables == if ok then old(tables).(groups := Upsert(old(tables).groups, name, row, now)) else old(tables)
    {
      ok := IsSlug(name);
      if ok {
        GroupUpsertHolds(tables, name, row, now);
        tables := tables.(groups := Upsert(tables.groups, name, row, now));
      }
    }

    method DeleteGroups(keep: set<string>)
      requires Valid()
      modifies this
      ensures Valid() && tables == GroupsDeleted(old(tables), keep)
    {
      GroupsDeletedHolds(tables, keep);
      tables := GroupsDeleted(tables, keep);
    }

    method UpsertUser(name: string, row: UserRow, now: int) returns (ok: bool)
      requires Valid()
      modifies this
      ensures Valid() && ok == (name != "")
      ensures tables == if ok then old(tables).(users := Upsert(old(tables).users, name, row, now)) else old(tables)
    {
      ok := name != "";
      if ok {
        UserUpsertHolds(tables, name, row, now);
        tables := tables.(users := Upsert(tables.users, name, row, now));
      }
    }

    method DeleteUsers(keep: set<string>)
      requires Valid()
      modifies this
      ensures Valid() && tables == UsersDeleted(old(tables), keep)
    {
      UsersDeletedHolds(tables, keep);
      tables := UsersDeleted(tables, keep);
    }

    method DeleteGroupMembers()
      requires Valid()
      modifies this
      ensures Valid() && tables == old(tables).(groupMembers := {})
    {
      tables := tables.(groupMembers := {});
    }

    method InsertGroupMember(group: string, user: string) returns (ok: bool)
      requires Valid()
      modifies this
      ensures Valid()
      ensures ok <==> group in old(tables).groups && user in old(tables).users && (group, user) !in old(tables).groupMembers
      ensures tables == if ok then old(tables).(groupMembers := old(tables).groupMembers + {(group, user)}) else old(tables)
    {
      ok := group in tables.groups && user in tables.users && (group, user) !in tables.groupMembers;
      if ok {
        tables := tables.(groupMembers := tables.groupMembers + {(group, user)});
      }
    }

    method UpsertRule(id: RuleId, row: RuleRow, now: int) returns (ok: bool)
      requires Valid()
      modifies this
      ensures Valid() && ok == (RuleCheck(id, row) && RuleRefers(old(tables), id))
      ensures tables == if ok then old(tables).(rules := Upsert(old(tables).rules, id, row, now)) else old(tables)
    {
      ok := RuleCheck(id, row) && RuleRefers(tables, id);
      if ok {
        RuleUpsertHolds(tables, id, row, now);
        tables := tables.(rules := Upsert(tables.rules, id, row, now));
      }
    }

    method DeleteRules(keys: set<string>)
      requires Valid()
      modifies this
      ensures Valid() && tables == RulesDeleted(old(tables), keys)
    {
      RulesDeletedHolds(tables, keys);
      tables := RulesDeleted(tables, keys);
    }
  }
}
