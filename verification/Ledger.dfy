/** The slot ledger: one tick's view of every node and of who holds slots
    where, against which admission, node choice and the quota rules are decided. */
module Ledgers {
  import opened Wrappers
  import opened Counting
  import opened Text
  import opened Catalogs
  import opened Quotas
  import opened Model

  datatype NodeLedger = NodeLedger(info: NodeInfo, pool: string, used: nat)
  {
    function Free(): (n: nat)
      ensures n > 0 ==> used + n == info.slots && info.slots > 0
    {
      if !info.ready || pool == "" then 0 else Max(0, info.slots - used)
    }
  }

  // An in-flight run as the rules see it: whose, on which node, and the pools
  // it counts in.
  datatype Flight = Flight(user: string, node: string, pools: set<string>)

  // What a run charges to the ledger.
  datatype Claim = Claim(user: string, pool: string, nodeId: string, nodeName: string)

  function ClaimOf(r: Run): Claim {
    Claim(r.user, r.pool, r.nodeId, r.nodeName)
  }

  datatype LedgerState = LedgerState(
    cat: Catalog,
    nodes: map<string, NodeLedger>,
    byPool: map<string, seq<string>>,
    byUser: map<string, nat>,
    inFlight: seq<Flight>)
  {
    function HeldBy(user: string): nat {
      if user in byUser then byUser[user] else 0
    }

    function ListedIn(pool: string): seq<string> {
      if pool in byPool then byPool[pool] else []
    }

    /** byPool lists every assigned node once, under the pool it serves. */
    ghost predicate Valid() {
      && (forall id | id in nodes :: nodes[id].info.id == id && nodes[id].pool == cat.NodePool(nodes[id].info.name))
      && (forall p, id :: id in ListedIn(p) <==> p != "" && id in nodes && nodes[id].pool == p)
      && (forall p :: Distinct(ListedIn(p)))
    }
  }

  // ------------------------------------------------------------------ scopes

  function ConcretePool(cat: Catalog, pool: string, node: string): string {
    var home := cat.NodePool(node);
    if home != "" then home
    else
      var p := cat.Pool(pool);
      if p.Some? && !p.value.IsVirtual() then pool else ""
  }

  /** The pools a run counts in: the one it was submitted to, the concrete pool
      of the node it sits on, and every virtual pool spanning that one. */
  function PoolsOf(cat: Catalog, pool: string, node: string): set<string> {
    var concrete := ConcretePool(cat, pool, node);
    {pool} + (if concrete == "" then {} else {concrete} + set p | p in cat.pools && concrete in p.spans :: p.name)
  }

  function FlightOf(cat: Catalog, c: Claim): Flight {
    Flight(c.user, c.nodeName, PoolsOf(cat, c.pool, c.nodeName))
  }

  /** Does a rule count this flight? For a per-user rule, on behalf of user. */
  predicate Sees(cat: Catalog, r: QuotaRule, user: string, f: Flight) {
    && (match r.scope
        case InPool => r.target in f.pools
        case OnNode => f.node == r.target
        case _ => true)
    && (if !r.together then f.user == user
        else r.subject.OneGroup? ==> r.name in cat.UserGroups(f.user))
  }

  function SeenBy(cat: Catalog, r: QuotaRule, user: string): Flight -> bool {
    f => Sees(cat, r, user, f)
  }

  function Count(l: LedgerState, r: QuotaRule, user: string): nat {
    CountIf(l.inFlight, SeenBy(l.cat, r, user))
  }

  /** The rule has no slot left. */
  predicate Exhausted(l: LedgerState, r: QuotaRule, user: string) {
    Count(l, r, user) >= r.maxSlots
  }

  /** The rule applies to the user's runs in the scope. */
  predicate Applies(cat: Catalog, user: string, scope: Scope, r: QuotaRule) {
    UserCap(cat, user, scope) == Some(r) || r in TogetherRules(cat, user, scope)
  }

  /** The scopes a run would count in, without a node only those known from the submission. */
  function ScopesOf(cat: Catalog, pool: string, node: Option<string>): set<Scope> {
    {EVERYWHERE, Scope(InPool, pool)} +
    match node
    case None => {}
    case Some(n) => (set p | p in PoolsOf(cat, pool, n) :: Scope(InPool, p)) + {Scope(OnNode, n)}
  }

  /** An exhausted rule stands in the way of the run. */
  ghost predicate BlockedBy(l: LedgerState, r: Run, node: Option<string>, rule: QuotaRule) {
    exists sc <- ScopesOf(l.cat, r.pool, node) ::
      Applies(l.cat, r.user, sc, rule) && Exhausted(l, rule, r.user)
  }

  ghost predicate Blocked(l: LedgerState, r: Run, node: Option<string>) {
    exists rule :: BlockedBy(l, r, node, rule)
  }

  // ------------------------------------------------------------ node choice

  predicate Satisfies(meta: map<string, string>, wants: map<string, string>) {
    forall k <- wants :: (if k in meta then meta[k] else "") == wants[k]
  }

  /** The node could take the run but for the rules. */
  predicate Fits(l: LedgerState, p: Pool, r: Run, id: string) {
    && id in l.nodes
    && l.nodes[id].pool in p.NodePools()
    && l.nodes[id].Free() > 0
    && Satisfies(l.nodes[id].info.meta, p.constraints)
    && Satisfies(l.nodes[id].info.meta, r.spec.requires_)
  }

  ghost predicate Candidate(l: LedgerState, p: Pool, r: Run, id: string) {
    Fits(l, p, r, id) && !Blocked(l, r, Some(l.nodes[id].info.name))
  }

  /** a is at most as loaded as b: free slots over all slots, cross-multiplied;
      an equal load is decided by name. */
  predicate NoMoreLoaded(a: NodeLedger, b: NodeLedger) {
    && b.Free() * a.info.slots <= a.Free() * b.info.slots
    && (b.Free() * a.info.slots == a.Free() * b.info.slots ==> AtMost(a.info.name, b.info.name))
  }

  /** A candidate no other candidate beats. */
  ghost predicate LeastLoaded(l: LedgerState, p: Pool, r: Run, id: string) {
    && Candidate(l, p, r, id)
    && forall c | Candidate(l, p, r, c) :: NoMoreLoaded(l.nodes[id], l.nodes[c])
  }

  ghost predicate Eligible(l: LedgerState, r: Run) {
    && l.cat.Pool(r.pool).Some?
    && !Blocked(l, r, None)
    && exists id :: Candidate(l, l.cat.Pool(r.pool).value, r, id)
  }

  // --------------------------------------------------------------- charging

  function Charge(l: LedgerState, c: Claim): LedgerState {
    l.(nodes := if c.nodeId in l.nodes
                then l.nodes[c.nodeId := l.nodes[c.nodeId].(used := l.nodes[c.nodeId].used + 1)]
                else l.nodes,
       byUser := l.byUser[c.user := l.HeldBy(c.user) + 1],
       inFlight := l.inFlight + [FlightOf(l.cat, c)])
  }

  function ChargeAll(l: LedgerState, cs: seq<Claim>): LedgerState {
    if cs == [] then l else Charge(ChargeAll(l, cs[..|cs| - 1]), cs[|cs| - 1])
  }

  function NodeEntry(cat: Catalog, n: NodeInfo): NodeLedger {
    NodeLedger(n, cat.NodePool(n.name), 0)
  }

  function AddNode(l: LedgerState, n: NodeInfo): LedgerState {
    var entry := NodeEntry(l.cat, n);
    l.(nodes := l.nodes[n.id := entry],
       byPool := if entry.pool == "" then l.byPool
                 else l.byPool[entry.pool := l.ListedIn(entry.pool) + [n.id]])
  }

  /** The ledger before any run is charged. */
  function Idle(cat: Catalog, inventory: seq<NodeInfo>): LedgerState {
    if inventory == [] then LedgerState(cat, map[], map[], map[], [])
    else AddNode(Idle(cat, inventory[..|inventory| - 1]), inventory[|inventory| - 1])
  }

  ghost predicate UniqueIds(inventory: seq<NodeInfo>) {
    forall i, j | 0 <= i < j < |inventory| :: inventory[i].id != inventory[j].id
  }

  lemma AddNodeLists(l: LedgerState, n: NodeInfo, p: string)
    requires l.Valid() && n.id !in l.nodes
    ensures var l' := AddNode(l, n);
      && Distinct(l'.ListedIn(p))
      && forall id :: id in l'.ListedIn(p) <==> p != "" && id in l'.nodes && l'.nodes[id].pool == p
  {
    var l', pool := AddNode(l, n), NodeEntry(l.cat, n).pool;
    var before, after := l.ListedIn(p), l'.ListedIn(p);
    assert n.id !in before && Distinct(before);
    assert after == if p == pool && p != "" then before + [n.id] else before;
    assert forall id :: id in after <==> id in before || (id == n.id && p == pool && p != "");
    forall id ensures id in after <==> p != "" && id in l'.nodes && l'.nodes[id].pool == p {
      if id != n.id {
        assert id in before <==> p != "" && id in l.nodes && l.nodes[id].pool == p;
      }
    }
  }

  lemma AddNodeKeepsValid(l: LedgerState, n: NodeInfo)
    requires l.Valid() && n.id !in l.nodes
    ensures AddNode(l, n).Valid()
  {
    forall p { AddNodeLists(l, n, p); }
  }

  lemma {:induction false} IdleLists(cat: Catalog, inventory: seq<NodeInfo>)
    requires UniqueIds(inventory)
    ensures Idle(cat, inventory).cat == cat
    ensures Idle(cat, inventory).byUser == map[] && Idle(cat, inventory).inFlight == []
    ensures forall id <- Idle(cat, inventory).nodes :: exists n <- inventory :: n.id == id
    ensures forall n <- inventory :: n.id in Idle(cat, inventory).nodes && Idle(cat, inventory).nodes[n.id] == NodeEntry(cat, n)
  {
    if inventory != [] {
      var rest, n := inventory[..|inventory| - 1], inventory[|inventory| - 1];
      IdleLists(cat, rest);
      assert inventory == rest + [n];
    }
  }

  lemma {:induction false} IdleIsValid(cat: Catalog, inventory: seq<NodeInfo>)
    requires UniqueIds(inventory)
    ensures Idle(cat, inventory).Valid()
  {
    if inventory != [] {
      var rest, n := inventory[..|inventory| - 1], inventory[|inventory| - 1];
      IdleIsValid(cat, rest);
      IdleLists(cat, rest);
      AddNodeKeepsValid(Idle(cat, rest), n);
    }
  }

  lemma ChargeKeepsValid(l: LedgerState, c: Claim)
    requires l.Valid()
    ensures Charge(l, c).Valid()
  {
    var l' := Charge(l, c);
    assert forall id | id in l'.nodes :: l'.nodes[id].info == l.nodes[id].info && l'.nodes[id].pool == l.nodes[id].pool;
    assert forall p :: l'.ListedIn(p) == l.ListedIn(p);
  }
}
