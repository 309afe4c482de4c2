/** Whole-run safety: in every history of a fixed catalog and inventory, no node
    is over-filled and no quota rule exceeded. */
module Safety {
  import opened Wrappers
  import opened Counting
  import opened Catalogs
  import opened Model
  import opened Ledgers
  import opened LedgerFacts
  import opened LedgerObject
  import opened Admission
  import opened Lifecycle
  import opened Limits
  import opened Quotas

  // The runs in flight and what each holds.
  type Holdings = map<string, Claim>

  function HoldingsOf(s: StoreState): Holdings {
    map id | id in s.runs && s.runs[id].state.InFlight() :: ClaimOf(s.runs[id])
  }

  function Held(h: Holdings, p: Claim -> bool): set<string> {
    set id | id in h && p(h[id])
  }

  function Holding(h: Holdings, p: Claim -> bool): nat {
    |Held(h, p)|
  }

  /** ids lists the runs in flight, each once. */
  ghost predicate Lists(h: Holdings, ids: seq<string>) {
    Distinct(ids) && forall id :: id in ids <==> id in h
  }

  function ClaimsAt(h: Holdings, ids: seq<string>): seq<Claim>
    requires forall id <- ids :: id in h
  {
    seq(|ids|, i requires 0 <= i < |ids| => h[ids[i]])
  }

  /** The ledger of these holdings, charged in this order. */
  function LedgerOf(cat: Catalog, inventory: seq<NodeInfo>, h: Holdings, ids: seq<string>): LedgerState
    requires forall id <- ids :: id in h
  {
    ChargeAll(Idle(cat, inventory), ClaimsAt(h, ids))
  }

  /** No node holds more runs than it has slots, and no rule sees more than it allows. */
  ghost predicate Safe(cat: Catalog, inventory: seq<NodeInfo>, h: Holdings) {
    && (forall n <- inventory :: Holding(h, SitsOn(n.id)) <= n.slots)
    && (forall rule, user | Enforced(cat, rule, user) :: Holding(h, Counted(cat, rule, user)) <= rule.maxSlots)
  }

  // ------------------------------------------- the ledger counts the holdings

  function Matching(h: Holdings, ids: seq<string>, p: Claim -> bool): set<string> {
    set id | id in ids && id in h && p(h[id])
  }

  lemma {:induction false} CountOfClaims(h: Holdings, ids: seq<string>, p: Claim -> bool)
    requires Distinct(ids) && forall id <- ids :: id in h
    ensures CountIf(ClaimsAt(h, ids), p) == |Matching(h, ids, p)|
  {
    hide CountIf;
    hide Matching;
    if ids == [] {
      NoClaims(h, p);
    } else {
      var rest, x := ids[..|ids| - 1], ids[|ids| - 1];
      assert ids == rest + [x];
      ClaimsAtAppend(h, rest, x);
      CountAppend(ClaimsAt(h, rest), h[x], p);
      CountOfClaims(h, rest, p);
      OneMoreMatches(h, rest, x, p);
    }
  }

  lemma NoClaims(h: Holdings, p: Claim -> bool)
    ensures CountIf(ClaimsAt(h, []), p) == 0 == |Matching(h, [], p)|
  {
    assert Matching(h, [], p) == {};
  }

  lemma OneMoreMatches(h: Holdings, ids: seq<string>, x: string, p: Claim -> bool)
    requires x !in ids && x in h
    ensures |Matching(h, ids + [x], p)| == |Matching(h, ids, p)| + (if p(h[x]) then 1 else 0)
  {
    assert Matching(h, ids + [x], p) == Matching(h, ids, p) + if p(h[x]) then {x} else {};
  }

  lemma ClaimsAtAppend(h: Holdings, ids: seq<string>, id: string)
    requires id in h && forall x <- ids :: x in h
    ensures ClaimsAt(h, ids + [id]) == ClaimsAt(h, ids) + [h[id]]
  {
  }

  lemma CountOfHoldings(h: Holdings, ids: seq<string>, p: Claim -> bool)
    requires Lists(h, ids)
    ensures CountIf(ClaimsAt(h, ids), p) == Holding(h, p)
  {
    CountOfClaims(h, ids, p);
    assert Matching(h, ids, p) == Held(h, p);
  }

  /** A ledger's numbers are those of the store: slots used on a node, and runs
      a rule sees, whatever order the runs were listed in. */
  lemma LedgerCountsHoldings(cat: Catalog, inventory: seq<NodeInfo>, h: Holdings, ids: seq<string>)
    requires UniqueIds(inventory) && Lists(h, ids)
    ensures var l := LedgerOf(cat, inventory, h, ids);
      && l.cat == cat
      && (forall n <- inventory :: n.id in l.nodes && l.nodes[n.id].info == n && l.nodes[n.id].used == Holding(h, SitsOn(n.id)))
      && (forall id <- l.nodes :: exists n <- inventory :: n.id == id)
      && (forall rule, user :: Count(l, rule, user) == Holding(h, Counted(cat, rule, user)))
  {
    var idle, cs := Idle(cat, inventory), ClaimsAt(h, ids);
    IdleLists(cat, inventory);
    ChargedLedger(idle, cs);
    forall n <- inventory ensures CountIf(cs, SitsOn(n.id)) == Holding(h, SitsOn(n.id)) {
      CountOfHoldings(h, ids, SitsOn(n.id));
    }
    forall rule, user ensures Count(LedgerOf(cat, inventory, h, ids), rule, user) == Holding(h, Counted(cat, rule, user)) {
      ChargedCount(idle, cs, rule, user);
      CountOfHoldings(h, ids, Counted(cat, rule, user));
    }
  }

  // ----------------------------------------------------- in terms of the runs

  /** A flight is in the pools its run works in. */
  lemma PoolsAreThoseWorkedIn(cat: Catalog, r: Run, pool: string)
    ensures pool in PoolsOf(cat, r.pool, r.nodeName) <==> WorksIn(cat, pool, r)
  {
  }

  lemma SeesTheRun(cat: Catalog, rule: QuotaRule, user: string, r: Run)
    ensures Counted(cat, rule, user)(ClaimOf(r)) <==> InScope(cat, rule.ScopeOf(), r) && Concerns(cat, rule, user, r)
  {
    hide PoolsOf;
    hide WorksIn;
    PoolsAreThoseWorkedIn(cat, r, rule.target);
  }

  /** What a rule counts are the runs in flight in its scope: on its node, in
      its pool, or anywhere; of the user, of the group's members, or of everyone. */
  lemma RuleCounts(cat: Catalog, s: StoreState, rule: QuotaRule, user: string)
    ensures Holding(HoldingsOf(s), Counted(cat, rule, user)) == |RunsCounted(cat, s, rule, user)|
  {
    hide InScope;
    hide Concerns;
    var h := HoldingsOf(s);
    forall id <- h ensures Counted(cat, rule, user)(h[id]) <==> InScope(cat, rule.ScopeOf(), s.runs[id]) && Concerns(cat, rule, user, s.runs[id]) {
      SeesTheRun(cat, rule, user, s.runs[id]);
    }
    assert Held(h, Counted(cat, rule, user)) == RunsCounted(cat, s, rule, user);
  }

  lemma NodeHolds(s: StoreState, nodeId: string)
    ensures Holding(HoldingsOf(s), SitsOn(nodeId)) == |RunsOnNode(s, nodeId)|
  {
    assert Held(HoldingsOf(s), SitsOn(nodeId)) == RunsOnNode(s, nodeId);
  }

  /** The count a ledger gives for a rule is the number of those runs. */
  lemma LedgerCountsRuns(cat: Catalog, inventory: seq<NodeInfo>, s: StoreState, ids: seq<string>, rule: QuotaRule, user: string)
    requires UniqueIds(inventory) && Lists(HoldingsOf(s), ids)
    ensures Count(LedgerOf(cat, inventory, HoldingsOf(s), ids), rule, user) == |RunsCounted(cat, s, rule, user)|
  {
    LedgerCountsHoldings(cat, inventory, HoldingsOf(s), ids);
    RuleCounts(cat, s, rule, user);
  }

  /** The slots a user holds are their runs in flight, wherever they are. */
  lemma UserHolds(cat: Catalog, inventory: seq<NodeInfo>, s: StoreState, ids: seq<string>, user: string)
    requires UniqueIds(inventory) && Lists(HoldingsOf(s), ids)
    ensures LedgerOf(cat, inventory, HoldingsOf(s), ids).HeldBy(user) == |RunsOfUser(cat, s, EVERYWHERE, user)|
  {
    hide ChargeAll;
    hide ClaimsAt;
    hide CountIf;
    hide Idle;
    var h := HoldingsOf(s);
    IdleLists(cat, inventory);
    ChargedLedger(Idle(cat, inventory), ClaimsAt(h, ids));
    CountOfHoldings(h, ids, OfUser(user));
    assert Held(h, OfUser(user)) == RunsOfUser(cat, s, EVERYWHERE, user);
  }

  lemma CapIsPerUser(cat: Catalog, s: StoreState, user: string, scope: Scope)
    requires UserCap(cat, user, scope).Some?
    ensures var rule := UserCap(cat, user, scope).value;
      && rule in cat.quotas && !rule.together && rule.ScopeOf() == scope
      && RunsCounted(cat, s, rule, user) == RunsOfUser(cat, s, scope, user)
  {
    UserCapIsMostSpecific(cat, user, scope);
  }

  // ------------------------------------------------------------ what is safe

  lemma FewerHoldingsAreSafe(cat: Catalog, inventory: seq<NodeInfo>, h: Holdings, h': Holdings)
    requires Safe(cat, inventory, h)
    requires forall id <- h' :: id in h && h'[id] == h[id]
    ensures Safe(cat, inventory, h')
  {
    forall p: Claim -> bool ensures Holding(h', p) <= Holding(h, p) {
      SmallerSet(Held(h', p), Held(h, p));
    }
  }

  lemma HoldingOneMore(h: Holdings, id: string, c: Claim, p: Claim -> bool)
    requires id !in h
    ensures Holding(h[id := c], p) == Holding(h, p) + (if p(c) then 1 else 0)
  {
    assert Held(h[id := c], p) == if p(c) then Held(h, p) + {id} else Held(h, p);
  }

  /** The node could be given the run now, by the ledger of what is in flight. */
  ghost predicate CanPlace(cat: Catalog, inventory: seq<NodeInfo>, h: Holdings, r: Run, nodeId: string, nodeName: string) {
    && cat.Pool(r.pool).Some?
    && exists ids :: Lists(h, ids)
         && Candidate(LedgerOf(cat, inventory, h, ids), cat.Pool(r.pool).value, r, nodeId)
         && NodeName(LedgerOf(cat, inventory, h, ids), nodeId) == nodeName
  }

  lemma PlacingKeepsSlots(cat: Catalog, inventory: seq<NodeInfo>, h: Holdings, ids: seq<string>, r: Run, id: string, nodeId: string, c: Claim)
    requires UniqueIds(inventory) && Lists(h, ids) && id !in h && c.nodeId == nodeId && cat.Pool(r.pool).Some?
    requires Fits(LedgerOf(cat, inventory, h, ids), cat.Pool(r.pool).value, r, nodeId)
    requires forall n <- inventory :: Holding(h, SitsOn(n.id)) <= n.slots
    ensures forall n <- inventory :: Holding(h[id := c], SitsOn(n.id)) <= n.slots
  {
    LedgerCountsHoldings(cat, inventory, h, ids);
    forall n <- inventory ensures Holding(h[id := c], SitsOn(n.id)) <= n.slots {
      HoldingOneMore(h, id, c, SitsOn(n.id));
    }
  }

  lemma PlacingKeepsLimit(cat: Catalog, inventory: seq<NodeInfo>, h: Holdings, ids: seq<string>, r: Run, id: string, nodeId: string,
                          rule: QuotaRule, user: string)
    requires ValidRules(cat) && UniqueIds(inventory) && Lists(h, ids) && id !in h && Enforced(cat, rule, user)
    requires nodeId in LedgerOf(cat, inventory, h, ids).nodes
    requires !Blocked(LedgerOf(cat, inventory, h, ids), r, Some(NodeName(LedgerOf(cat, inventory, h, ids), nodeId)))
    requires Holding(h, Counted(cat, rule, user)) <= rule.maxSlots
    ensures Holding(h[id := ClaimOf(On(LedgerOf(cat, inventory, h, ids), r, nodeId))], Counted(cat, rule, user)) <= rule.maxSlots
  {
    var l := LedgerOf(cat, inventory, h, ids);
    var c := ClaimOf(On(l, r, nodeId));
    LedgerCountsHoldings(cat, inventory, h, ids);
    HoldingOneMore(h, id, c, Counted(cat, rule, user));
    CountAfterCharge(l, c, rule, user);
    AttemptKeepsLimit(l, r, nodeId, rule, user);
  }

  lemma PlacingIsSafe(cat: Catalog, inventory: seq<NodeInfo>, h: Holdings, r: Run, id: string, nodeId: string, nodeName: string)
    requires ValidRules(cat) && UniqueIds(inventory)
    requires Safe(cat, inventory, h) && id !in h && CanPlace(cat, inventory, h, r, nodeId, nodeName)
    ensures Safe(cat, inventory, h[id := Claim(r.user, r.pool, nodeId, nodeName)])
  {
    var c := Claim(r.user, r.pool, nodeId, nodeName);
    var ids :| Lists(h, ids) && Candidate(LedgerOf(cat, inventory, h, ids), cat.Pool(r.pool).value, r, nodeId)
               && NodeName(LedgerOf(cat, inventory, h, ids), nodeId) == nodeName;
    PlacingKeepsSlots(cat, inventory, h, ids, r, id, nodeId, c);
    assert ClaimOf(On(LedgerOf(cat, inventory, h, ids), r, nodeId)) == c;
    forall rule, user | Enforced(cat, rule, user) ensures Holding(h[id := c], Counted(cat, rule, user)) <= rule.maxSlots {
      PlacingKeepsLimit(cat, inventory, h, ids, r, id, nodeId, rule, user);
    }
  }

  // ------------------------------------------------------------- disciplined

  /** Runners report only on runs in flight, so not on one a restart has queued
      again; reports name the node the run was pinned to; and runs are placed
      where the ledger of the moment allows. */
  ghost predicate Disciplined(cfg: Config, inventory: seq<NodeInfo>, s: StoreState, e: Event) {
    match e
    case Place(id, nodeId, nodeName, _) =>
      id in s.runs && CanPlace(cfg.cat, inventory, HoldingsOf(s), s.runs[id], nodeId, nodeName)
    case Start(id, nodeId, nodeName, _) =>
      id in s.runs && s.runs[id].state.InFlight() && Pinned(s.runs[id], nodeId, nodeName)
    case Relocate(id, nodeId, nodeName) =>
      id in s.runs && (s.runs[id].state.InFlight() ==> nodeId == s.runs[id].nodeId && nodeName == s.runs[id].nodeName)
    case Results(id, _, nodeId, nodeName, _) =>
      id in s.runs && (s.runs[id].state.InFlight() ==> Pinned(s.runs[id], nodeId, nodeName))
    case _ => true
  }

  predicate Pinned(r: Run, nodeId: string, nodeName: string) {
    nodeId == "" || (nodeId == r.nodeId && nodeName == r.nodeName)
  }

  ghost predicate AllDisciplined(cfg: Config, inventory: seq<NodeInfo>, s: StoreState, es: seq<Event>)
    requires Legal(cfg, s, es)
    decreases |es|
  {
    es == [] || (Disciplined(cfg, inventory, s, es[0]) && AllDisciplined(cfg, inventory, Apply(s, es[0]), es[1..]))
  }

  lemma PutHoldings(s: StoreState, r: Run)
    ensures HoldingsOf(PutRun(s, r)) == if r.state.InFlight() then HoldingsOf(s)[r.id := ClaimOf(r)] else HoldingsOf(s) - {r.id}
  {
  }

  lemma TouchedHoldings(s: StoreState, e: Event)
    requires AboutARun(e) && e.id in s.runs && s.runs[e.id].id == e.id
    ensures var r, h' := Touched(s.runs[e.id], e), HoldingsOf(PutRun(s, Touched(s.runs[e.id], e)));
      h' == if r.state.InFlight() then HoldingsOf(s)[e.id := ClaimOf(r)] else HoldingsOf(s) - {e.id}
  {
    hide HoldingsOf;
    TouchedKeepsIdentity(s.runs[e.id], e);
    PutHoldings(s, Touched(s.runs[e.id], e));
  }

  lemma HeaderHoldsTheSame(s: StoreState, e: Event)
    requires e.Rollup? && e.regId in s.regs
    ensures HoldingsOf(Apply(s, e)) == HoldingsOf(s)
  {
  }

  lemma RestartHoldsNothing(s: StoreState)
    ensures HoldingsOf(Apply(s, Restart)) == map[]
  {
  }

  lemma RunEventIsSafe(cfg: Config, inventory: seq<NodeInfo>, s: StoreState, e: Event)
    requires ValidRules(cfg.cat) && UniqueIds(inventory) && RunsOk(s)
    requires AboutARun(e) && e.id in s.runs && Disciplined(cfg, inventory, s, e)
    requires e.Place? ==> s.runs[e.id].state.Queued?
    requires e.Observe? ==> s.runs[e.id].state.InFlight()
    requires e.Finish? ==> e.state.Terminal()
    requires Safe(cfg.cat, inventory, HoldingsOf(s))
    ensures Safe(cfg.cat, inventory, HoldingsOf(PutRun(s, Touched(s.runs[e.id], e))))
  {
    var h, r, r' := HoldingsOf(s), s.runs[e.id], Touched(s.runs[e.id], e);
    TouchedHoldings(s, e);
    if e.Place? {
      PlacingIsSafe(cfg.cat, inventory, h, r, e.id, e.nodeId, e.nodeName);
    } else {
      StaysPut(cfg, inventory, s, e);
      FewerHoldingsAreSafe(cfg.cat, inventory, h, HoldingsOf(PutRun(s, r')));
    }
  }

  /** A run a disciplined event leaves in flight holds what it held. */
  lemma StaysPut(cfg: Config, inventory: seq<NodeInfo>, s: StoreState, e: Event)
    requires AboutARun(e) && !e.Place? && e.id in s.runs && Disciplined(cfg, inventory, s, e)
    requires e.Observe? ==> s.runs[e.id].state.InFlight()
    requires e.Finish? ==> e.state.Terminal()
    ensures var r := Touched(s.runs[e.id], e);
      r.state.InFlight() ==> e.id in HoldingsOf(s) && ClaimOf(r) == HoldingsOf(s)[e.id]
  {
  }

  lemma AddingQueuedHoldsNothing(s: StoreState, r: Run)
    requires r.state.Queued? && r.id !in s.runs
    ensures HoldingsOf(AddRun(s, r)) == HoldingsOf(s)
  {
  }

  lemma ExtensionHoldsNothing(s: StoreState, s': StoreState, rs: seq<Run>)
    requires Extends(s, s', rs) && forall r <- rs :: r.state.Queued?
    ensures HoldingsOf(s') == HoldingsOf(s)
  {
  }

  /** What being enabled means for who is in flight. */
  lemma EnabledMeans(cfg: Config, s: StoreState, e: Event)
    requires Enabled(cfg, s, e) && RunsOk(s)
    ensures AboutARun(e) ==> e.id in s.runs && s.runs[e.id].id == e.id
    ensures e.Rollup? ==> e.regId in s.regs
    ensures e.Place? ==> s.runs[e.id].state.Queued?
    ensures e.Observe? ==> s.runs[e.id].state.InFlight()
    ensures e.Finish? ==> e.state.Terminal()
    ensures e.Finish? && e.retry.Some? ==> e.retry.value.state.Queued? && e.retry.value.id !in s.runs
  {
  }

  lemma EventIsSafe(cfg: Config, inventory: seq<NodeInfo>, s: StoreState, e: Event)
    requires ValidRules(cfg.cat) && UniqueIds(inventory) && Indexed(s)
    requires Enabled(cfg, s, e) && Disciplined(cfg, inventory, s, e)
    requires Safe(cfg.cat, inventory, HoldingsOf(s))
    ensures Safe(cfg.cat, inventory, HoldingsOf(Apply(s, e)))
  {
    hide Safe;
    hide RecordsOk;
    hide TokensOk;
    hide HoldingsOf;
    hide Enabled;
    hide Disciplined;
    hide AddRuns;
    EnabledMeans(cfg, s, e);
    if e.Submit? {
      SubmitHoldsNothing(cfg, s, e);
    } else if e.Rollup? {
      HeaderHoldsTheSame(s, e);
    } else if e.Restart? {
      RestartHoldsNothing(s);
      FewerHoldingsAreSafe(cfg.cat, inventory, HoldingsOf(s), HoldingsOf(Apply(s, e)));
    } else {
      RunEventIsSafe(cfg, inventory, s, e);
      if e.Finish? && e.retry.Some? {
        AddingQueuedHoldsNothing(PutRun(s, Touched(s.runs[e.id], e)), e.retry.value);
      }
    }
  }

  lemma SubmitHoldsNothing(cfg: Config, s: StoreState, e: Event)
    requires Indexed(s) && Enabled(cfg, s, e) && e.Submit?
    ensures HoldingsOf(Apply(s, e)) == HoldingsOf(s)
  {
    SubmitKeepsIndexed(cfg, s, e.reg, e.firsts);
    ExtensionHoldsNothing(AddRegression(s, e.reg), Apply(s, e), e.firsts);
  }

  /** In every history under a fixed, validated catalog and inventory, restarts
      included, a store within its limits stays within them: each node's runs in
      flight are at most its slots, each user's in each scope at most the limit
      of the rule UserCap returns there, and those an aggregate rule counts at
      most its limit. */
  lemma {:induction false} HistoryIsSafe(cfg: Config, inventory: seq<NodeInfo>, s: StoreState, es: seq<Event>)
    requires ValidRules(cfg.cat) && UniqueIds(inventory) && Indexed(s)
    requires Legal(cfg, s, es) && AllDisciplined(cfg, inventory, s, es)
    requires WithinLimits(cfg.cat, inventory, s)
    ensures WithinLimits(cfg.cat, inventory, ApplyAll(cfg, s, es))
    decreases |es|
  {
    hide WithinLimits;
    hide Safe;
    hide HoldingsOf;
    if es != [] {
      var s' := Apply(s, es[0]);
      EventKeepsIndexed(cfg, s, es[0]);
      SafeMeans(cfg.cat, inventory, s);
      EventIsSafe(cfg, inventory, s, es[0]);
      SafeMeans(cfg.cat, inventory, s');
      HistoryIsSafe(cfg, inventory, s', es[1..]);
    }
  }

  /** So it is in every state reachable from an empty store. */
  lemma ReachableIsSafe(cfg: Config, inventory: seq<NodeInfo>, es: seq<Event>)
    requires ValidRules(cfg.cat) && UniqueIds(inventory)
    requires Legal(cfg, EMPTY_STORE, es) && AllDisciplined(cfg, inventory, EMPTY_STORE, es)
    ensures WithinLimits(cfg.cat, inventory, ApplyAll(cfg, EMPTY_STORE, es))
  {
    hide WithinLimits;
    EmptyStoreIsSafe(cfg.cat, inventory);
    SafeMeans(cfg.cat, inventory, EMPTY_STORE);
    HistoryIsSafe(cfg, inventory, EMPTY_STORE, es);
  }

  lemma EmptyStoreIsSafe(cat: Catalog, inventory: seq<NodeInfo>)
    requires ValidRules(cat)
    ensures Indexed(EMPTY_STORE) && Safe(cat, inventory, HoldingsOf(EMPTY_STORE))
  {
    var h := HoldingsOf(EMPTY_STORE);
    forall p: Claim -> bool ensures Holding(h, p) == 0 {
      assert Held(h, p) == {};
    }
  }

  // ----------------------------------------------------------- what blocks

  /** A rule that governs a run in one of these scopes. */
  lemma AppliesMeans(cat: Catalog, r: Run, rule: QuotaRule, scope: Scope)
    requires ValidRules(cat)
    ensures Applies(cat, r.user, scope, rule) <==>
      && rule in cat.quotas && rule.ScopeOf() == scope && Concerns(cat, rule, r.user, r)
      && (!rule.together ==> UserCap(cat, r.user, scope) == Some(rule))
  {
    hide UserCap;
    if UserCap(cat, r.user, scope).Some? {
      UserCapIsMostSpecific(cat, r.user, scope);
    }
    assert rule in cat.quotas ==> rule.ValidShape();
  }

  /** The scopes a run is checked in are those it would be in. */
  lemma ScopeIsChecked(cat: Catalog, r: Run, rule: QuotaRule)
    requires rule.ValidShape()
    ensures rule.ScopeOf() in ScopesOf(cat, r.pool, Some(r.nodeName)) <==> InScope(cat, rule.ScopeOf(), r)
    ensures rule.ScopeOf() in ScopesOf(cat, r.pool, None) <==> rule.scope == Anywhere || (rule.scope == InPool && rule.target == r.pool)
  {
    hide PoolsOf;
    PoolsAreThoseWorkedIn(cat, r, rule.target);
  }

  /** A rule blocks a run, on a node or before one is chosen, when it governs it
      in a scope looked at and counts as many runs of the store as it allows. */
  lemma BlockedByMeans(cat: Catalog, inventory: seq<NodeInfo>, s: StoreState, ids: seq<string>, r: Run, node: Option<string>, rule: QuotaRule)
    requires ValidRules(cat) && UniqueIds(inventory) && Lists(HoldingsOf(s), ids)
    ensures BlockedBy(LedgerOf(cat, inventory, HoldingsOf(s), ids), r, node, rule) <==>
      && rule in cat.quotas && rule.ScopeOf() in ScopesOf(cat, r.pool, node) && Concerns(cat, rule, r.user, r)
      && (!rule.together ==> UserCap(cat, r.user, rule.ScopeOf()) == Some(rule))
      && |RunsCounted(cat, s, rule, r.user)| >= rule.maxSlots
  {
    hide LedgerOf;
    hide HoldingsOf;
    hide Applies;
    hide Count;
    hide RunsCounted;
    hide Concerns;
    hide UserCap;
    hide ScopesOf;
    LedgerCountsHoldings(cat, inventory, HoldingsOf(s), ids);
    LedgerCountsRuns(cat, inventory, s, ids, rule, r.user);
    AppliesMeans(cat, r, rule, rule.ScopeOf());
    forall scope | scope != rule.ScopeOf() ensures !Applies(cat, r.user, scope, rule) {
      AppliesMeans(cat, r, rule, scope);
    }
  }

  /** On a node, a run is blocked exactly when some rule that would count it
      there, and that governs it, counts as many runs of the store as it allows. */
  lemma BlockedMeans(cat: Catalog, inventory: seq<NodeInfo>, s: StoreState, ids: seq<string>, r: Run, node: string)
    requires ValidRules(cat) && UniqueIds(inventory) && Lists(HoldingsOf(s), ids)
    ensures Blocked(LedgerOf(cat, inventory, HoldingsOf(s), ids), r, Some(node)) <==>
            exists rule :: FullFor(cat, s, rule, r.(nodeName := node))
  {
    hide LedgerOf;
    hide HoldingsOf;
    hide BlockedBy;
    hide InScope;
    hide RunsCounted;
    hide UserCap;
    hide ScopesOf;
    forall rule ensures BlockedBy(LedgerOf(cat, inventory, HoldingsOf(s), ids), r, Some(node), rule) <==> FullFor(cat, s, rule, r.(nodeName := node)) {
      BlockedByMeans(cat, inventory, s, ids, r, Some(node), rule);
      if rule in cat.quotas {
        assert rule.ValidShape();
        ScopeIsChecked(cat, r.(nodeName := node), rule);
      }
    }
  }

  /** Before a node is chosen, the rules looked at are those of everywhere and
      of the pool submitted to. */
  lemma BlockedBeforehandMeans(cat: Catalog, inventory: seq<NodeInfo>, s: StoreState, ids: seq<string>, r: Run)
    requires ValidRules(cat) && UniqueIds(inventory) && Lists(HoldingsOf(s), ids)
    ensures Blocked(LedgerOf(cat, inventory, HoldingsOf(s), ids), r, None) <==>
            exists rule :: FullFor(cat, s, rule, r) && (rule.scope == Anywhere || (rule.scope == InPool && rule.target == r.pool))
  {
    hide LedgerOf;
    hide HoldingsOf;
    hide BlockedBy;
    hide RunsCounted;
    hide UserCap;
    hide ScopesOf;
    forall rule ensures BlockedBy(LedgerOf(cat, inventory, HoldingsOf(s), ids), r, None, rule) <==>
      FullFor(cat, s, rule, r) && (rule.scope == Anywhere || (rule.scope == InPool && rule.target == r.pool))
    {
      BlockedByMeans(cat, inventory, s, ids, r, None, rule);
      if rule in cat.quotas {
        assert rule.ValidShape();
        ScopeIsChecked(cat, r, rule);
      }
    }
  }

  lemma {:induction false} Listed(ids: set<string>) returns (out: seq<string>)
    ensures Distinct(out) && forall id :: id in out <==> id in ids
    decreases |ids|
  {
    if ids == {} {
      out := [];
    } else {
      var id :| id in ids;
      var rest := Listed(ids - {id});
      out := rest + [id];
    }
  }

  lemma {:induction false} ChargedIsValid(l: LedgerState, cs: seq<Claim>)
    requires l.Valid()
    ensures ChargeAll(l, cs).Valid()
  {
    if cs != [] {
      ChargedIsValid(l, cs[..|cs| - 1]);
      ChargeKeepsValid(ChargeAll(l, cs[..|cs| - 1]), cs[|cs| - 1]);
    }
  }

  lemma CandidateMeans(cat: Catalog, inventory: seq<NodeInfo>, s: StoreState, ids: seq<string>, p: Pool, r: Run, n: NodeInfo)
    requires ValidRules(cat) && UniqueIds(inventory) && Lists(HoldingsOf(s), ids) && n in inventory
    ensures Candidate(LedgerOf(cat, inventory, HoldingsOf(s), ids), p, r, n.id) <==>
            Suits(cat, n, |RunsOnNode(s, n.id)|, p, r) && forall rule :: !FullFor(cat, s, rule, r.(nodeName := n.name))
    ensures NodeName(LedgerOf(cat, inventory, HoldingsOf(s), ids), n.id) == n.name
  {
    hide HoldingsOf;
    hide RunsOnNode;
    hide Suits;
    hide FullFor;
    hide Blocked;
    hide Fits;
    hide ChargeAll;
    var l := LedgerOf(cat, inventory, HoldingsOf(s), ids);
    LedgerCountsHoldings(cat, inventory, HoldingsOf(s), ids);
    IdleIsValid(cat, inventory);
    ChargedIsValid(Idle(cat, inventory), ClaimsAt(HoldingsOf(s), ids));
    NodeHolds(s, n.id);
    FitsMeans(l, p, r, n.id);
    BlockedMeans(cat, inventory, s, ids, r, n.name);
  }

  /** What blocks a run before a node is chosen blocks it on every node. */
  lemma BlockedBeforehand(l: LedgerState, r: Run, node: string)
    ensures Blocked(l, r, None) ==> Blocked(l, r, Some(node))
  {
    if rule :| BlockedBy(l, r, None, rule) {
      assert BlockedBy(l, r, Some(node), rule);
    }
  }

  /** A run is eligible exactly when it could start on some node. */
  lemma EligibleMeans(cat: Catalog, inventory: seq<NodeInfo>, s: StoreState, ids: seq<string>, r: Run)
    requires ValidRules(cat) && UniqueIds(inventory) && Lists(HoldingsOf(s), ids)
    ensures Eligible(LedgerOf(cat, inventory, HoldingsOf(s), ids), r) <==> exists n <- inventory :: CouldStart(cat, s, n, r)
  {
    hide HoldingsOf;
    hide RunsOnNode;
    hide Suits;
    hide FullFor;
    hide LedgerOf;
    hide Blocked;
    hide Fits;
    var l := LedgerOf(cat, inventory, HoldingsOf(s), ids);
    LedgerCountsHoldings(cat, inventory, HoldingsOf(s), ids);
    if cat.Pool(r.pool).Some? {
      var p := cat.Pool(r.pool).value;
      forall n <- inventory ensures Candidate(l, p, r, n.id) <==> CouldStart(cat, s, n, r) {
        CandidateMeans(cat, inventory, s, ids, p, r, n);
      }
      forall id | Candidate(l, p, r, id) ensures id in l.nodes && !Blocked(l, r, None) {
        CandidateIsListed(l, p, r, id);
        BlockedBeforehand(l, r, l.nodes[id].info.name);
      }
    }
  }

  /** A node could be given a run now exactly when it is a worker that suits it,
      over the runs the store has there, and no rule that would count the run is
      full. */
  lemma CanPlaceMeans(cat: Catalog, inventory: seq<NodeInfo>, s: StoreState, r: Run, nodeId: string, nodeName: string)
    requires ValidRules(cat) && UniqueIds(inventory)
    ensures CanPlace(cat, inventory, HoldingsOf(s), r, nodeId, nodeName) <==>
      && cat.Pool(r.pool).Some?
      && (exists n <- inventory :: n.id == nodeId && n.name == nodeName && Suits(cat, n, |RunsOnNode(s, n.id)|, cat.Pool(r.pool).value, r))
      && (forall rule :: !FullFor(cat, s, rule, r.(nodeName := nodeName)))
  {
    hide HoldingsOf;
    hide RunsOnNode;
    hide Suits;
    hide FullFor;
    hide Candidate;
    hide LedgerOf;
    var h := HoldingsOf(s);
    var some := Listed(h.Keys);
    forall ids, n | Lists(h, ids) && n in inventory && cat.Pool(r.pool).Some?
      ensures Candidate(LedgerOf(cat, inventory, h, ids), cat.Pool(r.pool).value, r, n.id) <==>
              Suits(cat, n, |RunsOnNode(s, n.id)|, cat.Pool(r.pool).value, r) && forall rule :: !FullFor(cat, s, rule, r.(nodeName := n.name))
      ensures NodeName(LedgerOf(cat, inventory, h, ids), n.id) == n.name
    {
      CandidateMeans(cat, inventory, s, ids, cat.Pool(r.pool).value, r, n);
    }
    if ids :| Lists(h, ids) && cat.Pool(r.pool).Some? && Candidate(LedgerOf(cat, inventory, h, ids), cat.Pool(r.pool).value, r, nodeId)
              && NodeName(LedgerOf(cat, inventory, h, ids), nodeId) == nodeName {
      LedgerCountsHoldings(cat, inventory, h, ids);
      CandidateIsListed(LedgerOf(cat, inventory, h, ids), cat.Pool(r.pool).value, r, nodeId);
    }
    assert Lists(h, some);
  }

  lemma CandidateIsListed(l: LedgerState, p: Pool, r: Run, id: string)
    requires Candidate(l, p, r, id)
    ensures id in l.nodes
  {
  }

  /** Safe is within limits, run by run. */
  lemma SafeMeans(cat: Catalog, inventory: seq<NodeInfo>, s: StoreState)
    ensures Safe(cat, inventory, HoldingsOf(s)) <==> WithinLimits(cat, inventory, s)
  {
    hide HoldingsOf;
    hide RunsCounted;
    hide RunsOfUser;
    hide RunsOnNode;
    hide Counted;
    hide UserCap;
    forall n ensures Holding(HoldingsOf(s), SitsOn(n)) == |RunsOnNode(s, n)| {
      NodeHolds(s, n);
    }
    forall rule, user ensures Holding(HoldingsOf(s), Counted(cat, rule, user)) == |RunsCounted(cat, s, rule, user)| {
      RuleCounts(cat, s, rule, user);
    }
    forall user, scope | UserCap(cat, user, scope).Some?
      ensures var rule := UserCap(cat, user, scope).value;
        && Enforced(cat, rule, user) && rule.ScopeOf() == scope && !rule.together
        && RunsCounted(cat, s, rule, user) == RunsOfUser(cat, s, scope, user)
    {
      CapIsPerUser(cat, s, user, scope);
    }
  }

  // ------------------------------------------- the ledger follows the store

  /** Charging a run just placed is rebuilding the ledger with it listed last. */
  lemma LedgerFollows(cat: Catalog, inventory: seq<NodeInfo>, h: Holdings, ids: seq<string>, id: string, c: Claim)
    requires Lists(h, ids) && id !in h
    ensures Lists(h[id := c], ids + [id])
    ensures LedgerOf(cat, inventory, h[id := c], ids + [id]) == Charge(LedgerOf(cat, inventory, h, ids), c)
  {
    ClaimsAtAppend(h[id := c], ids, id);
    assert ClaimsAt(h[id := c], ids) == ClaimsAt(h, ids);
    ChargeAllAppend(Idle(cat, inventory), ClaimsAt(h, ids), c);
  }

  /** The ledger does not depend, but for the order of inFlight, on how the runs are listed. */
  lemma RebuiltLedgerIsTheSame(cat: Catalog, inventory: seq<NodeInfo>, h: Holdings, ids: seq<string>, ids': seq<string>)
    requires Lists(h, ids) && Lists(h, ids')
    ensures SameUpToOrder(LedgerOf(cat, inventory, h, ids), LedgerOf(cat, inventory, h, ids'))
  {
    var (cs, ds) := (ClaimsAt(h, ids), ClaimsAt(h, ids'));
    forall c ensures multiset(cs)[c] == multiset(ds)[c] {
      CountMultiplicity(cs, c);
      CountMultiplicity(ds, c);
      CountOfHoldings(h, ids, EqualTo(c));
      CountOfHoldings(h, ids', EqualTo(c));
    }
    assert multiset(cs) == multiset(ds);
    ChargeOrderIsImmaterial(Idle(cat, inventory), cs, ds);
  }
}
