/** What a save leaves behind: the catalog's rows, whatever the tables held before. */
module Replacing {
  import opened Wrappers
  import opened Counting
  import opened Catalogs
  import opened RuleKeys
  import opened Validation
  import opened Tables
  import opened Text
  import opened Schema
  import opened Saving

  lemma PoolsReplaced(t: CatalogTables, c: Catalog, now: int)
    requires Consistent(t) && Valid(c)
    ensures var s := Saved(t, c, now); Holds(Data(s.pools), PoolRows(c.pools)) && Stamps(t.pools, s.pools, now)
  {
    PoolRowsUnique(c);
    KeptKeys(t.pools, PoolRows(c.pools), now);
    ReplaceHolds(t.pools, PoolRows(c.pools), now);
  }

  lemma GroupsReplaced(t: CatalogTables, c: Catalog, now: int)
    requires Consistent(t) && Valid(c)
    ensures var s := Saved(t, c, now); Holds(Data(s.groups), GroupRows(c.groups)) && Stamps(t.groups, s.groups, now)
  {
    GroupRowsUnique(c);
    KeptKeys(t.groups, GroupRows(c.groups), now);
    ReplaceHolds(t.groups, GroupRows(c.groups), now);
  }

  lemma UsersReplaced(t: CatalogTables, c: Catalog, now: int)
    requires Consistent(t) && Valid(c)
    ensures var s := Saved(t, c, now); Holds(Data(s.users), UserRows(c.users)) && Stamps(t.users, s.users, now)
  {
    UserRowsUnique(c);
    KeptKeys(t.users, UserRows(c.users), now);
    ReplaceHolds(t.users, UserRows(c.users), now);
  }

  /** Nodes of a deleted pool are unassigned first; then each gets the pool the catalog gives it. */
  lemma NodesReplaced(t: CatalogTables, c: Catalog, now: int)
    requires Consistent(t) && Valid(c)
    ensures var s := Saved(t, c, now); Holds(Data(s.nodes), NodeRows(c.nodes)) && Stamps(t.nodes, s.nodes, now)
  {
    var t1 := PoolsSaved(t, c, now);
    NodeRowsUnique(c);
    KeptKeys(t1.nodes, NodeRows(c.nodes), now);
    ReplaceHolds(t1.nodes, NodeRows(c.nodes), now);
    NodeStamps(t, c, now);
  }

  lemma NodeStamps(t: CatalogTables, c: Catalog, now: int)
    requires Consistent(t) && Valid(c)
    requires var t1 := PoolsSaved(t, c, now);
      var nodes := Keep(UpsertAll(t1.nodes, NodeRows(c.nodes), now), KeysOf(NodeRows(c.nodes)));
      Holds(Data(nodes), NodeRows(c.nodes)) && Stamps(t1.nodes, nodes, now)
    ensures Stamps(t.nodes, Keep(UpsertAll(PoolsSaved(t, c, now).nodes, NodeRows(c.nodes), now), KeysOf(NodeRows(c.nodes))), now)
  {
    var t1 := PoolsSaved(t, c, now);
    var nodes := Keep(UpsertAll(t1.nodes, NodeRows(c.nodes), now), KeysOf(NodeRows(c.nodes)));
    forall n | n in nodes && n in t.nodes && t1.nodes[n] != t.nodes[n] ensures nodes[n].data != t.nodes[n].data {
      var i :| 0 <= i < |c.nodes| && NodeRows(c.nodes)[i].0 == n;
      assert NodeRows(c.nodes)[i] in NodeRows(c.nodes);
      NodeIsFine(c, i);
      assert nodes[n].data == NullIfEmpty(c.nodes[i].pool);
    }
  }

  lemma {:induction false} SpanPositions(m: map<(string, string), int>, p: Pool, n: nat)
    requires n <= |p.spans| && Distinct(p.spans)
    ensures forall i | 0 <= i < n :: (p.name, p.spans[i]) in WithSpans(m, p, n) && WithSpans(m, p, n)[(p.name, p.spans[i])] == i
    ensures forall k <- m | k.0 != p.name :: k in WithSpans(m, p, n) && WithSpans(m, p, n)[k] == m[k]
  {
    if n > 0 {
      SpanPositions(m, p, n - 1);
    }
  }

  /** Every span is at its place in the list. */
  ghost predicate Placed(m: map<(string, string), int>, p: Pool) {
    forall i | 0 <= i < |p.spans| :: (p.name, p.spans[i]) in m && m[(p.name, p.spans[i])] == i
  }

  lemma {:induction false} SpansPlaced(pools: seq<Pool>)
    requires UniqueBy(pools, NameOfPool) && forall p <- pools :: Distinct(p.spans)
    ensures forall p <- pools :: Placed(SpanRows(pools), p)
  {
    if pools != [] {
      var rest, p := pools[..|pools| - 1], pools[|pools| - 1];
      assert pools == rest + [p];
      SpansPlaced(rest);
      SpanPositions(SpanRows(rest), p, |p.spans|);
      forall q <- rest ensures Placed(SpanRows(pools), q) {
        var j :| 0 <= j < |rest| && rest[j] == q;
        assert NameOfPool(pools[j]) != NameOfPool(pools[|pools| - 1]);
        assert Placed(SpanRows(rest), q);
      }
    }
  }

  /** The membership rows are the spans, each at its position. */
  lemma MembersReplaced(t: CatalogTables, c: Catalog, now: int)
    requires Valid(c)
    ensures var s := Saved(t, c, now);
      && (forall k {:trigger k in s.poolMembers} :: k in s.poolMembers <==> SpansAs(c.pools, k))
      && (forall p <- c.pools :: Placed(s.poolMembers, p))
      && (forall k {:trigger k in s.groupMembers} :: k in s.groupMembers <==> BelongsAs(c.users, k))
  {
    SpanRowsKeys(c.pools);
    forall p <- c.pools ensures Distinct(p.spans) {
      assert PoolOk(c.pools, p);
    }
    SpansPlaced(c.pools);
    MembershipRowsAre(c.users);
  }

  // ------------------------------------------------------------------- rules

  lemma RenderedIsSubject(r: QuotaRule)
    requires r.ValidShape()
    ensures RenderedSubject(IdOf(r)) == SubjectPart(r)
  {
  }

  lemma RenderedIsScope(r: QuotaRule)
    requires r.ValidShape()
    ensures RenderedScope(IdOf(r)) == RuleKeys.Named(ScopeText(r.scope), r.target)
  {
  }

  lemma RenderedIsKey(r: QuotaRule)
    requires r.ValidShape()
    ensures RenderedKey(IdOf(r)) == Key(r)
  {
    RenderedIsSubject(r);
    RenderedIsScope(r);
  }

  /** The rule a row stands for, but for its limit and note. */
  function RuleOf(id: RuleId): QuotaRule {
    QuotaRule(id.subject,
              if id.user.Some? then id.user.value else if id.group.Some? then id.group.value else "",
              id.together,
              id.scope,
              if id.pool.Some? then id.pool.value else if id.node.Some? then id.node.value else "",
              0, "")
  }

  lemma RowIsARule(t: CatalogTables, id: RuleId)
    requires Consistent(t) && id in t.rules
    ensures RuleOf(id).ValidShape() && IdOf(RuleOf(id)) == id && RenderedKey(id) == Key(RuleOf(id))
  {
    assert RuleCheck(id, t.rules[id].data) && RuleRefers(t, id);
    RenderedIsKey(RuleOf(id));
  }

  lemma RuleRowsUnique(c: Catalog)
    requires RulesOk(c)
    ensures UniqueKeys(RuleRows(c.quotas))
    ensures forall id :: id in KeysOf(RuleRows(c.quotas)) <==> exists r <- c.quotas :: IdOf(r) == id
  {
    var rows := RuleRows(c.quotas);
    forall i, j | 0 <= i < j < |c.quotas| ensures rows[i].0 != rows[j].0 {
      assert Key(c.quotas[i]) != Key(c.quotas[j]);
      assert RuleOk(c, c.quotas[i]) && RuleOk(c, c.quotas[j]);
      RenderedIsKey(c.quotas[i]);
      RenderedIsKey(c.quotas[j]);
    }
    forall r <- c.quotas ensures IdOf(r) in KeysOf(rows) {
      var i :| 0 <= i < |c.quotas| && c.quotas[i] == r;
      assert rows[i] in rows;
    }
  }

  /** A row the catalog no longer has, but whose key, as rendered, reads as the key of one it has. */
  ghost predicate Stale(t: CatalogTables, c: Catalog, id: RuleId) {
    && id in t.rules
    && id !in KeysOf(RuleRows(c.quotas))
    && RenderedKey(id) in KeySet(c.quotas)
    && Refers(id.user, KeysOf(UserRows(c.users)))
    && Refers(id.group, KeysOf(GroupRows(c.groups)))
    && Refers(id.pool, KeysOf(PoolRows(c.pools)))
    && Refers(id.node, KeysOf(NodeRows(c.nodes)))
  }

  /** The rules whose user, group, pool and node all stay. */
  function Surviving(t: CatalogTables, c: Catalog): Table<RuleId, RuleRow> {
    map id | id in t.rules
             && Refers(id.user, KeysOf(UserRows(c.users))) && Refers(id.group, KeysOf(GroupRows(c.groups)))
             && Refers(id.pool, KeysOf(PoolRows(c.pools))) && Refers(id.node, KeysOf(NodeRows(c.nodes))) :: t.rules[id]
  }

  lemma KeptReferences(t: CatalogTables, id: RuleId, names: set<string>)
    requires Consistent(t) && id in t.rules
    ensures Refers(id.user, KeepSet(names)) <==> Refers(id.user, names)
    ensures Refers(id.group, KeepSet(names)) <==> Refers(id.group, names)
    ensures Refers(id.pool, KeepSet(names)) <==> Refers(id.pool, names)
    ensures Refers(id.node, KeepSet(names)) <==> Refers(id.node, names)
  {
    assert RuleRefers(t, id);
  }

  /** Deleting pools, nodes, groups and users takes exactly the rules that named them. */
  lemma RulesCascade(t: CatalogTables, c: Catalog, now: int)
    requires Consistent(t)
    ensures UsersSaved(GroupsSaved(NodesSaved(PoolsSaved(t, c, now), c, now), c, now), c, now).rules == Surviving(t, c)
  {
    hide UpsertAll;
    hide KeysOf;
    hide KeepSet;
    hide SpanRows;
    hide MembershipRows;
    hide Keep;
    hide PoolRows;
    hide NodeRows;
    hide UserRows;
    hide GroupRows;
    hide Consistent;
    hide Refers;
    forall id <- t.rules
      ensures id in UsersSaved(GroupsSaved(NodesSaved(PoolsSaved(t, c, now), c, now), c, now), c, now).rules <==> id in Surviving(t, c)
    {
      KeptReferences(t, id, KeysOf(PoolRows(c.pools)));
      KeptReferences(t, id, KeysOf(NodeRows(c.nodes)));
      KeptReferences(t, id, KeysOf(GroupRows(c.groups)));
      KeptReferences(t, id, KeysOf(UserRows(c.users)));
    }
  }

  /** The rules of a save, from those that survived the deletions. */
  function RulesFrom(before: Table<RuleId, RuleRow>, c: Catalog, now: int): Table<RuleId, RuleRow> {
    map id | id in UpsertAll(before, RuleRows(c.quotas), now) && RenderedKey(id) in KeepSet(KeySet(c.quotas))
      :: UpsertAll(before, RuleRows(c.quotas), now)[id]
  }

  lemma SavedRules(t: CatalogTables, c: Catalog, now: int)
    requires Consistent(t)
    ensures Saved(t, c, now).rules == RulesFrom(Surviving(t, c), c, now)
  {
    RulesCascade(t, c, now);
  }

  lemma CatalogKeysKept(c: Catalog, id: RuleId)
    requires RulesOk(c) && id in KeysOf(RuleRows(c.quotas))
    ensures RenderedKey(id) in KeySet(c.quotas)
  {
    RuleRowsUnique(c);
    var r :| r in c.quotas && IdOf(r) == id;
    assert RuleOk(c, r);
    RenderedIsKey(r);
  }

  lemma KeyIsNotEmpty(id: RuleId)
    ensures RenderedKey(id) != ""
  {
  }

  /** The rules a save leaves are the catalog's, and the stale ones, untouched. */
  lemma RulesReplaced(t: CatalogTables, c: Catalog, now: int)
    requires Consistent(t) && Valid(c)
    ensures var s, rows := Saved(t, c, now), RuleRows(c.quotas);
      && (forall row <- rows :: row.0 in s.rules && s.rules[row.0].data == row.1)
      && (forall id {:trigger id in s.rules} | id !in KeysOf(rows) :: id in s.rules <==> Stale(t, c, id))
      && (forall id <- s.rules | id !in KeysOf(rows) :: id in t.rules && s.rules[id] == t.rules[id])
  {
    hide UpsertAll;
    hide RenderedKey;
    hide Consistent;
    hide Saved;
    var s, rows, before := Saved(t, c, now), RuleRows(c.quotas), Surviving(t, c);
    SavedRules(t, c, now);
    RuleRowsUnique(c);
    UpsertAllHolds(before, rows, now);
    forall row <- rows ensures row.0 in s.rules && s.rules[row.0].data == row.1 {
      CatalogKeysKept(c, row.0);
    }
    forall id | id !in KeysOf(rows)
      ensures id in s.rules <==> Stale(t, c, id)
      ensures id in s.rules ==> s.rules[id] == t.rules[id]
    {
      KeyIsNotEmpty(id);
    }
  }

  lemma RuleStamps(t: CatalogTables, c: Catalog, now: int)
    requires Consistent(t) && Valid(c)
    ensures Stamps(t.rules, Saved(t, c, now).rules, now)
  {
    var s, rows, before := Saved(t, c, now), RuleRows(c.quotas), Surviving(t, c);
    SavedRules(t, c, now);
    RuleRowsUnique(c);
    UpsertAllHolds(before, rows, now);
    forall id <- s.rules | id in t.rules ensures id in before && before[id] == t.rules[id] {
      if id in KeysOf(rows) {
        RuleSurvives(t, c, id);
      }
    }
  }

  /** A rule the catalog has survives: all it names is in the catalog too. */
  lemma RuleSurvives(t: CatalogTables, c: Catalog, id: RuleId)
    requires Valid(c) && id in t.rules && id in KeysOf(RuleRows(c.quotas))
    ensures id in Surviving(t, c)
  {
    RuleRowsUnique(c);
    var r :| r in c.quotas && IdOf(r) == id;
    assert RuleOk(c, r);
    PoolRowsUnique(c);
    NodeRowsUnique(c);
    GroupRowsUnique(c);
    UserRowsUnique(c);
  }

  lemma RowsHaveKeys(rows: seq<(RuleId, RuleRow)>)
    ensures forall row <- rows :: row.0 in KeysOf(rows)
    ensures forall id <- KeysOf(rows) :: exists row <- rows :: row.0 == id
  {
  }

  lemma StaleIsForeign(t: CatalogTables, c: Catalog, id: RuleId)
    requires Stale(t, c, id)
    ensures id !in KeysOf(RuleRows(c.quotas))
  {
  }

  /** The rules are the catalog's and nothing else exactly when no row is stale. */
  lemma RulesExact(t: CatalogTables, c: Catalog, now: int)
    requires Consistent(t) && Valid(c)
    ensures Holds(Data(Saved(t, c, now).rules), RuleRows(c.quotas)) <==> forall id :: !Stale(t, c, id)
  {
    hide Saved;
    hide Consistent;
    hide Valid;
    hide Stale;
    hide KeysOf;
    hide RuleRows;
    var s, rows := Saved(t, c, now), RuleRows(c.quotas);
    RulesReplaced(t, c, now);
    RowsHaveKeys(rows);
    if forall id :: !Stale(t, c, id) {
      assert Data(s.rules).Keys == KeysOf(rows);
    } else {
      var id :| Stale(t, c, id);
      StaleIsForeign(t, c, id);
      assert id in s.rules && id in Data(s.rules).Keys;
    }
  }

  // -------------------------------------------------------------- collisions

  /** No user named by a rule, stored or new, has an '@' in the name. */
  ghost predicate NoAts(t: CatalogTables, c: Catalog) {
    && (forall id <- t.rules :: '@' !in RuleOf(id).name)
    && (forall r <- c.quotas :: '@' !in r.name)
  }

  /** The subject's part of a key, cut at its first ':'. */
  lemma SubjectCut(r: QuotaRule)
    requires r.ValidShape()
    ensures Cut(SubjectPart(r), ':') ==
      if r.subject.Everyone? then ("global" + if r.together then TOGETHER else "", "", false)
      else (SubjectText(r.subject), r.name + if r.together then TOGETHER else "", true)
  {
    KnownKinds(r);
    var tail := if r.together then TOGETHER else "";
    if r.subject.Everyone? {
      CutNone("global" + tail, ':');
    } else {
      CutFirst(SubjectText(r.subject), ':', r.name + tail);
      assert SubjectPart(r) == SubjectText(r.subject) + [':'] + (r.name + tail);
    }
  }

  /** Without '@' in names, and '/' in those of groups, a key has one rule. */
  lemma SameKeySameRule(a: QuotaRule, b: QuotaRule)
    requires a.ValidShape() && '@' !in a.name && (a.subject.OneGroup? ==> '/' !in a.name)
    requires b.ValidShape() && '@' !in b.name && (b.subject.OneGroup? ==> '/' !in b.name)
    requires Key(a) == Key(b)
    ensures Identity(a) == Identity(b)
  {
    CutKey(a);
    CutKey(b);
    SubjectCut(a);
    SubjectCut(b);
    KnownKinds(a);
    KnownKinds(b);
    CutNamed(ScopeText(a.scope), a.target);
    CutNamed(ScopeText(b.scope), b.target);
    SameSubject(a, b);
  }

  lemma SameKind(a: QuotaRule, b: QuotaRule)
    requires a.ValidShape() && b.ValidShape() && Cut(SubjectPart(a), ':') == Cut(SubjectPart(b), ':')
    ensures a.subject == b.subject
  {
    SubjectCut(a);
    SubjectCut(b);
  }

  lemma SameSubject(a: QuotaRule, b: QuotaRule)
    requires a.ValidShape() && (a.subject.OneGroup? ==> '/' !in a.name)
    requires b.ValidShape() && (b.subject.OneGroup? ==> '/' !in b.name)
    requires Cut(SubjectPart(a), ':') == Cut(SubjectPart(b), ':')
    ensures a.subject == b.subject && a.name == b.name && a.together == b.together
  {
    SameKind(a, b);
    SubjectCut(a);
    SubjectCut(b);
    if a.subject.Everyone? {
      assert |"global" + TOGETHER| != |"global"|;
    } else if a.subject.OneGroup? {
      SameTail(a.name, a.together, b.name, b.together);
    } else {
      assert a.name + "" == a.name && b.name + "" == b.name;
    }
  }

  lemma SameTail(a: string, x: bool, b: string, y: bool)
    requires '/' !in a && '/' !in b
    requires (a + if x then TOGETHER else "") == (b + if y then TOGETHER else "")
    ensures a == b && x == y
  {
    var s := a + if x then TOGETHER else "";
    assert x ==> s[|a|] == '/';
    assert y ==> s[|b|] == '/';
    assert a == s[..|a|] && b == s[..|b|];
  }

  lemma SlugHasNoSlash(s: string)
    requires IsSlug(s)
    ensures '/' !in s && '@' !in s
  {
  }

  lemma StoredGroupIsPlain(t: CatalogTables, id: RuleId)
    requires Consistent(t) && id in t.rules
    ensures RuleOf(id).subject.OneGroup? ==> '/' !in RuleOf(id).name
  {
    assert RuleCheck(id, t.rules[id].data) && RuleRefers(t, id);
    if id.group.Some? {
      SlugHasNoSlash(id.group.value);
    }
  }

  lemma CatalogGroupIsPlain(c: Catalog, r: QuotaRule)
    requires Valid(c) && Storable(c) && r in c.quotas
    ensures r.ValidShape() && (r.subject.OneGroup? ==> '/' !in r.name)
  {
    assert RuleOk(c, r);
    if r.subject.OneGroup? {
      var g :| g in c.groups && NameOfGroup(g) == r.name;
      SlugHasNoSlash(g.name);
    }
  }

  /** Then no row is stale. */
  lemma NothingStale(t: CatalogTables, c: Catalog, id: RuleId)
    requires Consistent(t) && Valid(c) && Storable(c) && NoAts(t, c)
    ensures !Stale(t, c, id)
  {
    hide Consistent;
    hide Valid;
    hide Storable;
    hide RenderedKey;
    if id in t.rules && RenderedKey(id) in KeySet(c.quotas) {
      var r :| r in c.quotas && Key(r) == RenderedKey(id);
      RowIsARule(t, id);
      StoredGroupIsPlain(t, id);
      CatalogGroupIsPlain(c, r);
      SameKeySameRule(RuleOf(id), r);
      assert IdOf(r) == IdOf(Identity(r)) == id;
      CatalogHasRow(c, r);
    }
  }

  lemma CatalogHasRow(c: Catalog, r: QuotaRule)
    requires r in c.quotas
    ensures IdOf(r) in KeysOf(RuleRows(c.quotas))
  {
    var i :| 0 <= i < |c.quotas| && c.quotas[i] == r;
    assert RuleRows(c.quotas)[i] in RuleRows(c.quotas);
  }

  /** The tables hold exactly the catalog, its rules aside: every row, each membership, and nothing more. */
  ghost predicate HoldsLab(s: CatalogTables, c: Catalog) {
    && Holds(Data(s.pools), PoolRows(c.pools))
    && (forall k {:trigger k in s.poolMembers} :: k in s.poolMembers <==> SpansAs(c.pools, k))
    && (forall p <- c.pools :: Placed(s.poolMembers, p))
    && Holds(Data(s.nodes), NodeRows(c.nodes))
    && Holds(Data(s.groups), GroupRows(c.groups))
    && Holds(Data(s.users), UserRows(c.users))
    && (forall k {:trigger k in s.groupMembers} :: k in s.groupMembers <==> BelongsAs(c.users, k))
  }

  ghost predicate HoldsCatalog(s: CatalogTables, c: Catalog) {
    HoldsLab(s, c) && Holds(Data(s.rules), RuleRows(c.quotas))
  }

  /** Whatever consistent rows the tables held, saving a valid catalog leaves
      exactly its rows, if and only if no rule row is stale; and but for stale
      rules it always does. */
  lemma SaveReplacesEverything(t: CatalogTables, c: Catalog, now: int)
    requires Consistent(t) && Valid(c)
    ensures HoldsLab(Saved(t, c, now), c)
    ensures HoldsCatalog(Saved(t, c, now), c) <==> forall id :: !Stale(t, c, id)
  {
    hide Saved;
    hide Consistent;
    hide Valid;
    hide Holds;
    hide Stale;
    PoolsReplaced(t, c, now);
    NodesReplaced(t, c, now);
    GroupsReplaced(t, c, now);
    UsersReplaced(t, c, now);
    MembersReplaced(t, c, now);
    RulesExact(t, c, now);
  }

  /** No row is stale if no rule names a user with an '@'. */
  lemma SaveWithoutAts(t: CatalogTables, c: Catalog, now: int)
    requires Consistent(t) && Valid(c) && Storable(c) && NoAts(t, c)
    ensures HoldsCatalog(Saved(t, c, now), c)
  {
    hide Saved;
    hide Consistent;
    hide Valid;
    hide Stale;
    forall id ensures !Stale(t, c, id) {
      NothingStale(t, c, id);
    }
    SaveReplacesEverything(t, c, now);
  }

  /** Rows that stay keep their insertion time, and their update time unless they change. */
  lemma SaveKeepsStamps(t: CatalogTables, c: Catalog, now: int)
    requires Consistent(t) && Valid(c)
    ensures var s := Saved(t, c, now);
      && Stamps(t.pools, s.pools, now) && Stamps(t.nodes, s.nodes, now) && Stamps(t.groups, s.groups, now)
      && Stamps(t.users, s.users, now) && Stamps(t.rules, s.rules, now)
  {
    hide Saved;
    hide Consistent;
    hide Valid;
    hide Stamps;
    PoolsReplaced(t, c, now);
    NodesReplaced(t, c, now);
    GroupsReplaced(t, c, now);
    UsersReplaced(t, c, now);
    RuleStamps(t, c, now);
  }

  // --------------------------------------------------------- when rows linger

  const ANN := UserRow("", "")

  function Lingering(): RuleId {
    RuleId(OneUser, Some("ann@node:lab"), None, false, Anywhere, None, None)
  }

  /** Tables with two users and a rule on the one whose name holds an '@'. */
  function LingeringTables(): CatalogTables {
    CatalogTables(map[], map[], map[], map[],
                  map["ann" := Stamped(ANN, 0, 0), "ann@node:lab" := Stamped(ANN, 0, 0)], {},
                  map[Lingering() := Stamped(RuleRow(1, ""), 0, 0)])
  }

  /** The catalog that drops this rule and limits the other user on one node. */
  function LingeringCatalog(): Catalog {
    Catalog([], [Node("lab@global", "")], [], [User("ann", "", "", []), User("ann@node:lab", "", "", [])],
            [QuotaRule(OneUser, "ann", false, OnNode, "lab@global", 2, "")])
  }

  lemma LingeringIsValid()
    ensures Consistent(LingeringTables()) && Valid(LingeringCatalog()) && Storable(LingeringCatalog())
  {
    var c := LingeringCatalog();
    assert c.users[0] in c.users && c.nodes[0] in c.nodes;
    assert NameOfUser(c.users[0]) == "ann" && NameOfNode(c.nodes[0]) == "lab@global";
  }

  lemma LingeringIsStale()
    ensures Stale(LingeringTables(), LingeringCatalog(), Lingering())
  {
    var c := LingeringCatalog();
    var r := c.quotas[0];
    assert RuleRows(c.quotas) == [(IdOf(r), RuleRow(2, ""))];
    assert UserRows(c.users)[1] in UserRows(c.users);
    assert RenderedKey(Lingering()) == Key(r) && r in c.quotas;
  }

  /** Such a row exists: a dropped rule stays, since its key reads as the new one's. */
  lemma ARuleLingers(now: int)
    ensures var t, c := LingeringTables(), LingeringCatalog();
      && Consistent(t) && Valid(c) && Storable(c) && Stale(t, c, Lingering())
      && Lingering() in Saved(t, c, now).rules && !HoldsCatalog(Saved(t, c, now), c)
  {
    hide Saved;
    hide Consistent;
    hide Valid;
    hide Stale;
    hide LingeringCatalog;
    hide LingeringTables;
    var t, c := LingeringTables(), LingeringCatalog();
    LingeringIsValid();
    LingeringIsStale();
    StaleIsForeign(t, c, Lingering());
    RulesReplaced(t, c, now);
    RulesExact(t, c, now);
  }
}
