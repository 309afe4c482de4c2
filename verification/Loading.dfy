/** Loading the catalog back from its tables. */
module Loading {
  import opened Wrappers
  import opened Counting
  import opened Sorting
  import opened Arrays
  import opened Catalogs
  import opened Tables
  import opened Schema

  type PoolEntry = (string, PoolRow)

  type MemberEntry = ((string, string), int)

  // ---------------------------------------------------------------- listings

  /** The rows of a table, each once, in some order. */
  method SelectAll<K(!new,==), T(!new)>(t: map<K, T>) returns (rows: seq<(K, T)>)
    ensures UniqueKeys(rows) && Lists(t, rows)
  {
    rows := [];
    var rest := t.Keys;
    while rest != {}
      invariant rest <= t.Keys && UniqueKeys(rows)
      invariant forall row <- rows :: row.0 in t && t[row.0] == row.1 && row.0 !in rest
      invariant forall k <- t | k !in rest :: (k, t[k]) in rows
    {
      var k :| k in rest;
      rows := rows + [(k, t[k])];
      rest := rest - {k};
    }
  }

  /** The rows are those of the table. */
  ghost predicate Lists<K(!new), T(!new)>(t: map<K, T>, rows: seq<(K, T)>) {
    && (forall row <- rows :: row.0 in t && t[row.0] == row.1)
    && (forall k <- t :: (k, t[k]) in rows)
  }

  lemma UniqueKeysPermute<K(!new), T(!new)>(a: seq<(K, T)>, b: seq<(K, T)>)
    requires multiset(a) == multiset(b) && UniqueKeys(a)
    ensures UniqueKeys(b)
  {
    UniqueByPermutes(a, b, KeyOf);
    assert forall i, j | 0 <= i < j < |b| :: KeyOf(b[i]) != KeyOf(b[j]);
  }

  function KeyOf<K, T>(row: (K, T)): K {
    row.0
  }

  lemma ListsPermutes<K(!new), T(!new)>(t: map<K, T>, a: seq<(K, T)>, b: seq<(K, T)>)
    requires multiset(a) == multiset(b) && Lists(t, a)
    ensures Lists(t, b)
  {
    SameElements(a, b);
  }

  /** Two listings of one table are arrangements of each other. */
  lemma ListingsAgree<K(!new), T(!new)>(t: map<K, T>, a: seq<(K, T)>, b: seq<(K, T)>)
    requires UniqueKeys(a) && Lists(t, a) && UniqueKeys(b) && Lists(t, b)
    ensures multiset(a) == multiset(b)
  {
    assert forall i, j | 0 <= i < j < |a| :: a[i].0 != a[j].0;
    assert forall i, j | 0 <= i < j < |b| :: b[i].0 != b[j].0;
    SameElementsPermute(a, b);
  }

  // ------------------------------------------------------------------ orders

  function PositionOf(row: PoolEntry): int { row.1.position }

  function GroupPosition(row: (string, GroupRow)): int { row.1.position }

  function MemberPool(row: MemberEntry): string { row.0.0 }

  function MemberName(row: MemberEntry): string { row.0.1 }

  function MemberPosition(row: MemberEntry): int { row.1 }

  function MemberOrder(): (MemberEntry, MemberEntry) -> bool {
    Lex(ByName(MemberPool), Lex(ByRank(MemberPosition), ByName(MemberName)))
  }

  lemma MemberOrderIsTotal()
    ensures TotalPreorder(MemberOrder())
  {
    ByNameIsTotal(MemberPool);
    ByNameIsTotal(MemberName);
    ByRankIsTotal(MemberPosition);
    LexIsTotal(ByRank(MemberPosition), ByName(MemberName));
    LexIsTotal(ByName(MemberPool), Lex(ByRank(MemberPosition), ByName(MemberName)));
  }

  // -------------------------------------------------------------------- rows

  function TextOr(s: Option<string>): string {
    if s.Some? then s.value else ""
  }

  /** The pool of a row, but for the pools it spans. Arrays come as the server writes them. */
  function PoolOf(row: PoolEntry): Pool {
    var r := row.1;
    Pool(row.0, r.description, if r.runtime.Some? then r.runtime.value else Unset, TextOr(r.taskDriver), r.image,
         Parsed(Literal(ServerElements(r.command))), Parsed(Literal(ServerElements(r.runnerCommand))),
         r.dockerNetwork, r.constraints, r.runnerUrl, r.cacheDir, r.hostVolume, [])
  }

  function NodeOf(row: (string, Option<string>)): Node {
    Node(row.0, TextOr(row.1))
  }

  function GroupOf(row: (string, GroupRow)): Group {
    Group(row.0, row.1.description)
  }

  /** Exactly one of user and group is set, if any, and of pool and node. */
  function RuleFrom(row: (RuleId, RuleRow)): QuotaRule {
    QuotaRule(row.0.subject, TextOr(row.0.user) + TextOr(row.0.group), row.0.together,
              row.0.scope, TextOr(row.0.pool) + TextOr(row.0.node), row.1.maxSlots, row.1.note)
  }

  function InPoolNamed(name: string): MemberEntry -> bool {
    (row: MemberEntry) => row.0.0 == name
  }

  /** The members of one pool, in the order of their rows. */
  function MembersIn(rows: seq<MemberEntry>, name: string): seq<string> {
    Mapped(Filter(rows, InPoolNamed(name)), MemberName)
  }

  function OfUserNamed(name: string): ((string, string)) -> bool {
    (m: (string, string)) => m.1 == name
  }

  function GroupIn(m: (string, string)): string { m.0 }

  function GroupsOf(ms: seq<(string, string)>, name: string): seq<string> {
    Mapped(Filter(ms, OfUserNamed(name)), GroupIn)
  }

  function UserOf(ms: seq<(string, string)>, row: (string, UserRow)): User {
    User(row.0, row.1.displayName, row.1.email, GroupsOf(ms, row.0))
  }

  /** The pools of these rows, with the members of these. */
  function PoolsOf(rows: seq<PoolEntry>, members: seq<MemberEntry>): seq<Pool> {
    seq(|rows|, i requires 0 <= i < |rows| => PoolOf(rows[i]).(spans := MembersIn(members, rows[i].0)))
  }

  // ----------------------------------------------------------------- loading

  /** What the queries return: each table's rows in the order they were asked for. */
  datatype Answers = Answers(
    pools: seq<PoolEntry>,
    members: seq<MemberEntry>,
    nodes: seq<(string, Option<string>)>,
    groups: seq<(string, GroupRow)>,
    users: seq<(string, UserRow)>,
    memberships: seq<(string, string)>,
    rules: seq<(RuleId, RuleRow)>)

  ghost predicate Answer(t: CatalogTables, a: Answers) {
    && UniqueKeys(a.pools) && Lists(Data(t.pools), a.pools) && SortedBy(a.pools, ByRank(PositionOf))
    && UniqueKeys(a.members) && Lists(t.poolMembers, a.members) && SortedBy(a.members, MemberOrder())
    && UniqueKeys(a.nodes) && Lists(Data(t.nodes), a.nodes)
    && UniqueKeys(a.groups) && Lists(Data(t.groups), a.groups)
    && UniqueKeys(a.users) && Lists(Data(t.users), a.users)
    && Distinct(a.memberships) && (forall m :: m in a.memberships <==> m in t.groupMembers)
    && UniqueKeys(a.rules) && Lists(Data(t.rules), a.rules)
  }

  function CatalogFrom(a: Answers): Catalog {
    Catalog(PoolsOf(a.pools, a.members), Mapped(a.nodes, NodeOf), Mapped(a.groups, GroupOf),
            seq(|a.users|, i requires 0 <= i < |a.users| => UserOf(a.memberships, a.users[i])), Mapped(a.rules, RuleFrom))
  }

  /** The catalog the tables hold; none if there are no pools, so never seeded. */
  method LoadCatalog(db: Database) returns (cat: Option<Catalog>)
    requires db.Valid()
    ensures cat.None? <==> db.tables.pools == map[]
    ensures cat.Some? ==> exists a :: Answer(db.tables, a) && cat.value == CatalogFrom(a)
  {
    hide SortedBy;
    hide UniqueKeys;
    hide MemberOrder;
    hide PoolsOf;
    hide UserOf;
    hide Mapped;
    hide Data;
    var t := db.tables;
    DataKeys(t.pools);
    var poolRows := SelectPools(t);
    if |poolRows| == 0 {
      NoRows(Data(t.pools), poolRows);
      return None;
    }
    assert poolRows[0].0 in Data(t.pools);
    var memberRows := SelectMembers(t);
    var pools := LoadPools(poolRows, memberRows);
    var nodeRows := SelectAll(Data(t.nodes));
    var groupRows := SelectGroups(t);
    var userRows := SelectAll(Data(t.users));
    var memberships := SelectMemberships(t);
    var users := LoadUsers(userRows, memberships);
    var ruleRows := SelectAll(Data(t.rules));
    ghost var a := Answers(poolRows, memberRows, nodeRows, groupRows, userRows, memberships, ruleRows);
    assert Answer(t, a);
    return Some(Catalog(pools, Mapped(nodeRows, NodeOf), Mapped(groupRows, GroupOf), users, Mapped(ruleRows, RuleFrom)));
  }

  lemma DataKeys<K(!new), T(!new)>(t: Table<K, T>)
    ensures Data(t).Keys == t.Keys
  {
  }

  lemma NoRows<K(!new), T(!new)>(t: map<K, T>, rows: seq<(K, T)>)
    requires Lists(t, rows) && rows == []
    ensures t.Keys == {}
  {
  }

  method SelectPools(t: CatalogTables) returns (rows: seq<PoolEntry>)
    ensures UniqueKeys(rows) && Lists(Data(t.pools), rows) && SortedBy(rows, ByRank(PositionOf))
  {
    var found := SelectAll(Data(t.pools));
    ByRankIsTotal(PositionOf);
    rows := Sort(found, ByRank(PositionOf));
    UniqueKeysPermute(found, rows);
    ListsPermutes(Data(t.pools), found, rows);
  }

  method SelectMembers(t: CatalogTables) returns (rows: seq<MemberEntry>)
    ensures UniqueKeys(rows) && Lists(t.poolMembers, rows) && SortedBy(rows, MemberOrder())
  {
    var found := SelectAll(t.poolMembers);
    MemberOrderIsTotal();
    rows := Sort(found, MemberOrder());
    UniqueKeysPermute(found, rows);
    ListsPermutes(t.poolMembers, found, rows);
  }

  method SelectGroups(t: CatalogTables) returns (rows: seq<(string, GroupRow)>)
    ensures UniqueKeys(rows) && Lists(Data(t.groups), rows) && SortedBy(rows, ByRank(GroupPosition))
  {
    var found := SelectAll(Data(t.groups));
    ByRankIsTotal(GroupPosition);
    rows := Sort(found, ByRank(GroupPosition));
    UniqueKeysPermute(found, rows);
    ListsPermutes(Data(t.groups), found, rows);
  }

  method SelectMemberships(t: CatalogTables) returns (ms: seq<(string, string)>)
    ensures Distinct(ms) && forall m :: m in ms <==> m in t.groupMembers
  {
    ms := [];
    var rest := t.groupMembers;
    while rest != {}
      invariant rest <= t.groupMembers && Distinct(ms)
      invariant forall m :: m in ms <==> m in t.groupMembers && m !in rest
    {
      var m :| m in rest;
      DistinctAppend(ms, m);
      ms := ms + [m];
      rest := rest - {m};
    }
  }

  method LoadPools(rows: seq<PoolEntry>, members: seq<MemberEntry>) returns (pools: seq<Pool>)
    requires UniqueKeys(rows)
    ensures pools == PoolsOf(rows, members)
  {
    hide PoolOf;
    hide MembersIn;
    pools := [];
    NoMembers();
    for i := 0 to |rows|
      invariant pools == PoolsOf(rows[..i], [])
    {
      var p := LoadPool(rows[i]);
      pools := pools + [p];
    }
    assert rows[..|rows|] == rows && members[..0] == [];
    for k := 0 to |members|
      invariant pools == PoolsOf(rows, members[..k])
    {
      pools := AddSpan(rows, members[..k], pools, members[k]);
      assert members[..k + 1] == members[..k] + [members[k]];
    }
    assert members[..|members|] == members;
  }

  lemma NoMembers()
    ensures forall name :: MembersIn([], name) == []
    ensures forall row :: PoolOf(row).spans == []
  {
  }

  method LoadPool(row: PoolEntry) returns (p: Pool)
    ensures p == PoolOf(row)
  {
    var r := row.1;
    var command := ParseArray(Literal(ServerElements(r.command)));
    var runnerCommand := ParseArray(Literal(ServerElements(r.runnerCommand)));
    p := Pool(row.0, r.description, if r.runtime.Some? then r.runtime.value else Unset, TextOr(r.taskDriver), r.image,
              command, runnerCommand, r.dockerNetwork, r.constraints, r.runnerUrl, r.cacheDir, r.hostVolume, []);
  }

  lemma MembersAppend(members: seq<MemberEntry>, m: MemberEntry, name: string)
    ensures MembersIn(members + [m], name) == MembersIn(members, name) + if m.0.0 == name then [m.0.1] else []
  {
    FilterMapAppend(members, m, InPoolNamed(name), MemberName);
  }

  /** Add one membership row to the pool it names, if there is one. */
  method AddSpan(ghost rows: seq<PoolEntry>, ghost before: seq<MemberEntry>, pools: seq<Pool>, m: MemberEntry) returns (out: seq<Pool>)
    requires UniqueKeys(rows) && pools == PoolsOf(rows, before)
    ensures out == PoolsOf(rows, before + [m])
  {
    hide PoolOf;
    hide MembersIn;
    NamesKept(rows, before);
    var i := 0;
    while i < |pools| && pools[i].name != m.0.0
      invariant i <= |pools| && forall j | 0 <= j < i :: rows[j].0 != m.0.0
    {
      i := i + 1;
    }
    SpanAdded(rows, before, m, i);
    if i < |pools| {
      return pools[i := pools[i].(spans := pools[i].spans + [m.0.1])];
    }
    return pools;
  }

  lemma NamesKept(rows: seq<PoolEntry>, members: seq<MemberEntry>)
    ensures forall i | 0 <= i < |rows| :: PoolsOf(rows, members)[i].name == rows[i].0
  {
  }

  lemma SpanAdded(rows: seq<PoolEntry>, before: seq<MemberEntry>, m: MemberEntry, i: nat)
    requires UniqueKeys(rows) && i <= |rows| && (forall j | 0 <= j < i :: rows[j].0 != m.0.0)
    requires i < |rows| ==> rows[i].0 == m.0.0
    ensures var ps := PoolsOf(rows, before);
      PoolsOf(rows, before + [m]) == if i < |rows| then ps[i := ps[i].(spans := ps[i].spans + [m.0.1])] else ps
  {
    hide PoolOf;
    hide MembersIn;
    forall j | 0 <= j < |rows|
      ensures MembersIn(before + [m], rows[j].0) == MembersIn(before, rows[j].0) + if j == i then [m.0.1] else []
    {
      MembersAppend(before, m, rows[j].0);
      assert i < j ==> rows[i].0 != rows[j].0;
    }
    var ps, qs := PoolsOf(rows, before), PoolsOf(rows, before + [m]);
    forall j | 0 <= j < |rows| && j != i ensures qs[j] == ps[j] {
      assert MembersIn(before, rows[j].0) + [] == MembersIn(before, rows[j].0);
    }
  }

  function Of(inGroups: map<string, seq<string>>, user: string): seq<string> {
    if user in inGroups then inGroups[user] else []
  }

  /** Each user's groups. */
  method GroupUp(memberships: seq<(string, string)>) returns (inGroups: map<string, seq<string>>)
    ensures forall name :: Of(inGroups, name) == GroupsOf(memberships, name)
  {
    hide GroupsOf;
    inGroups := map[];
    NoGroups();
    assert memberships[..0] == [];
    for k := 0 to |memberships|
      invariant forall name :: Of(inGroups, name) == GroupsOf(memberships[..k], name)
    {
      var m := memberships[k];
      assert memberships[..k + 1] == memberships[..k] + [m];
      GroupsAppend(memberships[..k], m);
      assert Of(inGroups, m.1) == GroupsOf(memberships[..k], m.1);
      inGroups := inGroups[m.1 := Of(inGroups, m.1) + [m.0]];
    }
    assert memberships[..|memberships|] == memberships;
  }

  lemma NoGroups()
    ensures forall name :: GroupsOf([], name) == []
  {
  }

  lemma GroupsAppend(ms: seq<(string, string)>, m: (string, string))
    ensures forall name {:trigger GroupsOf(ms + [m], name)} :: GroupsOf(ms + [m], name) == GroupsOf(ms, name) + if m.1 == name then [m.0] else []
  {
    forall name ensures GroupsOf(ms + [m], name) == GroupsOf(ms, name) + if m.1 == name then [m.0] else [] {
      FilterMapAppend(ms, m, OfUserNamed(name), GroupIn);
    }
  }

  method LoadUsers(rows: seq<(string, UserRow)>, memberships: seq<(string, string)>) returns (users: seq<User>)
    ensures |users| == |rows| && forall i | 0 <= i < |rows| :: users[i] == UserOf(memberships, rows[i])
  {
    var inGroups := GroupUp(memberships);
    users := [];
    for i := 0 to |rows|
      invariant |users| == i && forall j | 0 <= j < i :: users[j] == UserOf(memberships, rows[j])
    {
      var name := rows[i].0;
      assert Of(inGroups, name) == GroupsOf(memberships, name);
      users := users + [User(name, rows[i].1.displayName, rows[i].1.email, Of(inGroups, name))];
    }
  }
}
