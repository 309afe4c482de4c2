/** The limits, said of the runs of a store: which runs hold a slot, in which
    scopes, and how many of them a node or a rule allows. */
module Limits {
  import opened Wrappers
  import opened Catalogs
  import opened Quotas
  import opened Model

  /** The run holds a slot. */
  predicate Busy(r: Run) {
    r.state == Dispatched || r.state == Running
  }

  /** Work on a node of this pool counts for the other: they are the same, or
      the other spans it. */
  predicate CountsFor(cat: Catalog, home: string, pool: string) {
    home != "" && (home == pool || exists p <- cat.pools :: p.name == pool && home in p.spans)
  }

  predicate IsConcretePool(cat: Catalog, pool: string) {
    cat.Pool(pool).Some? && cat.Pool(pool).value.spans == []
  }

  /** The run was submitted to the pool, or sits on a node assigned to it or to
      a pool it spans; a node in no pool stands for the concrete pool the run
      was submitted to. */
  predicate WorksIn(cat: Catalog, pool: string, r: Run) {
    || r.pool == pool
    || CountsFor(cat, cat.NodePool(r.nodeName), pool)
    || (cat.NodePool(r.nodeName) == "" && IsConcretePool(cat, r.pool) && CountsFor(cat, r.pool, pool))
  }

  predicate InScope(cat: Catalog, scope: Scope, r: Run) {
    match scope.kind
    case OnNode => r.nodeName == scope.target
    case InPool => WorksIn(cat, scope.target, r)
    case Anywhere => true
    case OtherScope(_) => true
  }

  /** The run is one of the user's, for a per-user rule; for an aggregate one,
      of a member of its group, or of anybody. */
  predicate Concerns(cat: Catalog, rule: QuotaRule, user: string, r: Run) {
    if !rule.together then r.user == user
    else if rule.subject == OneGroup then rule.name in cat.UserGroups(r.user)
    else true
  }

  /** The runs a rule counts, a per-user one on behalf of this user. */
  function RunsCounted(cat: Catalog, s: StoreState, rule: QuotaRule, user: string): set<string> {
    set id | id in s.runs && Busy(s.runs[id]) && InScope(cat, rule.ScopeOf(), s.runs[id]) && Concerns(cat, rule, user, s.runs[id])
  }

  /** The runs of a user that hold a slot in a scope. */
  function RunsOfUser(cat: Catalog, s: StoreState, scope: Scope, user: string): set<string> {
    set id | id in s.runs && Busy(s.runs[id]) && InScope(cat, scope, s.runs[id]) && s.runs[id].user == user
  }

  function RunsOnNode(s: StoreState, nodeId: string): set<string> {
    set id | id in s.runs && Busy(s.runs[id]) && s.runs[id].nodeId == nodeId
  }

  /** Every label wanted with a value is there with that value, and none wanted
      empty is there with one. */
  predicate HasLabels(meta: map<string, string>, wants: map<string, string>) {
    && (forall k <- wants | wants[k] != "" :: k in meta && meta[k] == wants[k])
    && (forall k <- wants | wants[k] == "" :: k in meta ==> meta[k] == "")
  }

  /** A worker with so many slots taken can run the suite for the pool: it is
      ready, assigned to the pool or, if that spans others, to one of them, has a
      slot left, and the labels the pool and the suite want. */
  predicate Suits(cat: Catalog, n: NodeInfo, taken: nat, p: Pool, r: Run) {
    && n.ready && taken < n.slots
    && cat.NodePool(n.name) != ""
    && (if p.spans == [] then cat.NodePool(n.name) == p.name else cat.NodePool(n.name) in p.spans)
    && HasLabels(n.meta, p.constraints) && HasLabels(n.meta, r.spec.requires_)
  }

  /** No node holds more runs than it has slots; no user more in a scope than
      their cap there allows; and no aggregate rule counts more than it allows. */
  ghost predicate WithinLimits(cat: Catalog, inventory: seq<NodeInfo>, s: StoreState) {
    && (forall n <- inventory :: |RunsOnNode(s, n.id)| <= n.slots)
    && (forall scope, user | UserCap(cat, user, scope).Some? ::
          |RunsOfUser(cat, s, scope, user)| <= UserCap(cat, user, scope).value.maxSlots)
    && (forall rule, user | rule in cat.quotas && rule.together :: |RunsCounted(cat, s, rule, user)| <= rule.maxSlots)
  }

  /** A run of this user in this place would be counted by the rule, which
      governs it and has no slot left. */
  ghost predicate FullFor(cat: Catalog, s: StoreState, rule: QuotaRule, r: Run) {
    && rule in cat.quotas
    && InScope(cat, rule.ScopeOf(), r) && Concerns(cat, rule, r.user, r)
    && (!rule.together ==> UserCap(cat, r.user, rule.ScopeOf()) == Some(rule))
    && |RunsCounted(cat, s, rule, r.user)| >= rule.maxSlots
  }

  /** The run could start on the node now: it suits the run, with the runs the
      store has there, and no rule that would count the run is full. */
  ghost predicate CouldStart(cat: Catalog, s: StoreState, n: NodeInfo, r: Run) {
    && cat.Pool(r.pool).Some?
    && Suits(cat, n, |RunsOnNode(s, n.id)|, cat.Pool(r.pool).value, r)
    && forall rule :: !FullFor(cat, s, rule, r.(nodeName := n.name))
  }
}
