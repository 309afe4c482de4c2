/** Reports that come after a restart: how a run the master has queued again
    takes a slot nobody granted it. */
module LateStarts {
  import opened Wrappers
  import opened Counting
  import opened Catalogs
  import opened Model
  import opened Ledgers
  import opened LedgerFacts
  import opened Admission
  import opened Lifecycle
  import opened Limits
  import opened Quotas
  import opened Safety
  import Validation

  /** The rule would count the claim, and has no slot left. */
  ghost predicate NoRoomIn(cat: Catalog, h: Holdings, c: Claim, rule: QuotaRule, user: string) {
    Enforced(cat, rule, user) && Counted(cat, rule, user)(c) && Holding(h, Counted(cat, rule, user)) >= rule.maxSlots
  }

  /** One more run like c would fit: a slot on its node, and one in every rule that counts it. */
  ghost predicate RoomFor(cat: Catalog, inventory: seq<NodeInfo>, h: Holdings, c: Claim) {
    && (forall n <- inventory | n.id == c.nodeId :: Holding(h, SitsOn(n.id)) < n.slots)
    && (forall rule, user :: !NoRoomIn(cat, h, c, rule, user))
  }

  lemma OneMoreIsSafe(cat: Catalog, inventory: seq<NodeInfo>, h: Holdings, id: string, c: Claim)
    requires Safe(cat, inventory, h) && id !in h
    ensures Safe(cat, inventory, h[id := c]) <==> RoomFor(cat, inventory, h, c)
  {
    hide Counted;
    hide Enforced;
    hide Holding;
    forall p: Claim -> bool ensures Holding(h[id := c], p) == Holding(h, p) + (if p(c) then 1 else 0) {
      HoldingOneMore(h, id, c, p);
    }
    if RoomFor(cat, inventory, h, c) {
      forall rule, user | Enforced(cat, rule, user) ensures Holding(h[id := c], Counted(cat, rule, user)) <= rule.maxSlots {
        assert !NoRoomIn(cat, h, c, rule, user);
      }
    } else if n :| n in inventory && n.id == c.nodeId && Holding(h, SitsOn(n.id)) >= n.slots {
      assert Holding(h[id := c], SitsOn(n.id)) > n.slots;
    } else {
      var rule, user :| NoRoomIn(cat, h, c, rule, user);
      assert Holding(h[id := c], Counted(cat, rule, user)) > rule.maxSlots;
    }
  }

  /** A report that a queued run started puts it in flight without asking the
      ledger: that is safe exactly when there happens to be room for it. */
  lemma LateStartIsSafe(cfg: Config, inventory: seq<NodeInfo>, s: StoreState, e: Event)
    requires RunsOk(s) && Enabled(cfg, s, e) && e.Start? && s.runs[e.id].state.Queued?
    requires WithinLimits(cfg.cat, inventory, s)
    ensures WithinLimits(cfg.cat, inventory, Apply(s, e)) <==>
      && (forall n <- inventory | n.id == Touched(s.runs[e.id], e).nodeId :: |RunsOnNode(s, n.id)| < n.slots)
      && forall rule :: !FullFor(cfg.cat, s, rule, Touched(s.runs[e.id], e))
  {
    hide Safe;
    hide RoomFor;
    hide WithinLimits;
    hide FullFor;
    SafeMeans(cfg.cat, inventory, s);
    SafeMeans(cfg.cat, inventory, Apply(s, e));
    TouchedHoldings(s, e);
    OneMoreIsSafe(cfg.cat, inventory, HoldingsOf(s), e.id, ClaimOf(Touched(s.runs[e.id], e)));
    RoomMeans(cfg.cat, inventory, s, Touched(s.runs[e.id], e));
  }

  lemma RoomMeans(cat: Catalog, inventory: seq<NodeInfo>, s: StoreState, r: Run)
    ensures RoomFor(cat, inventory, HoldingsOf(s), ClaimOf(r)) <==>
      && (forall n <- inventory | n.id == r.nodeId :: |RunsOnNode(s, n.id)| < n.slots)
      && forall rule :: !FullFor(cat, s, rule, r)
  {
    hide HoldingsOf;
    hide NoRoomIn;
    hide FullFor;
    RuleRoomMeans(cat, s, r);
    forall id ensures Holding(HoldingsOf(s), SitsOn(id)) == |RunsOnNode(s, id)| {
      NodeHolds(s, id);
    }
    forall rule, user | NoRoomIn(cat, HoldingsOf(s), ClaimOf(r), rule, user) ensures FullFor(cat, s, rule, r) {
      AnyUserWillDo(cat, s, r, rule, user);
    }
  }

  lemma RuleRoomMeans(cat: Catalog, s: StoreState, r: Run)
    ensures forall rule :: FullFor(cat, s, rule, r) <==> NoRoomIn(cat, HoldingsOf(s), ClaimOf(r), rule, r.user)
  {
    hide HoldingsOf;
    hide InScope;
    hide UserCap;
    forall rule ensures FullFor(cat, s, rule, r) <==> NoRoomIn(cat, HoldingsOf(s), ClaimOf(r), rule, r.user) {
      SeesTheRun(cat, rule, r.user, r);
      RuleCounts(cat, s, rule, r.user);
    }
  }

  lemma AnyUserWillDo(cat: Catalog, s: StoreState, r: Run, rule: QuotaRule, user: string)
    requires NoRoomIn(cat, HoldingsOf(s), ClaimOf(r), rule, user)
    ensures NoRoomIn(cat, HoldingsOf(s), ClaimOf(r), rule, r.user)
  {
    hide InScope;
    hide UserCap;
    SeesTheRun(cat, rule, user, r);
    SeesTheRun(cat, rule, r.user, r);
    RuleCounts(cat, s, rule, user);
    RuleCounts(cat, s, rule, r.user);
    if rule.together {
      assert RunsCounted(cat, s, rule, user) == RunsCounted(cat, s, rule, r.user);
    }
  }

  /** A run dispatched before a restart that reports after it. */
  function LateStart(a: string, b: string, n: NodeInfo, now: int): seq<Event> {
    [Place(a, n.id, n.name, now), Restart, Place(b, n.id, n.name, now), Start(a, n.id, n.name, now)]
  }

  function FirstPlaced(s: StoreState, a: string, n: NodeInfo, now: int): StoreState
    requires a in s.runs
  {
    Apply(s, Place(a, n.id, n.name, now))
  }

  /** The store when the late report comes. */
  function BothPlaced(s: StoreState, a: string, b: string, n: NodeInfo, now: int): StoreState
    requires a in s.runs && b in s.runs && s.runs[a].id == a
  {
    Apply(Apply(FirstPlaced(s, a, n, now), Restart), Place(b, n.id, n.name, now))
  }

  /** So restarts can over-fill a node: its one slot goes to a second run, by
      the ledger of the moment, and then the first one reports. */
  lemma RestartOverfills(cfg: Config, inventory: seq<NodeInfo>, s: StoreState, a: string, b: string, n: NodeInfo, now: int)
    requires ValidRules(cfg.cat) && UniqueIds(inventory) && n in inventory && n.slots == 1 && n.id != ""
    requires Indexed(s) && HoldingsOf(s) == map[] && WithinLimits(cfg.cat, inventory, s)
    requires a in s.runs && b in s.runs && a != b && s.runs[a].state.Queued? && s.runs[b].state.Queued?
    requires CanPlace(cfg.cat, inventory, map[], s.runs[a], n.id, n.name)
    requires CanPlace(cfg.cat, inventory, map[], s.runs[b], n.id, n.name)
    ensures var es := LateStart(a, b, n, now);
      && Legal(cfg, s, es) && Legal(cfg, s, es[..3]) && AllDisciplined(cfg, inventory, s, es[..3])
      && WithinLimits(cfg.cat, inventory, ApplyAll(cfg, s, es[..3]))
      && !WithinLimits(cfg.cat, inventory, ApplyAll(cfg, s, es))
  {
    hide HoldingsOf;
    hide WithinLimits;
    hide CanPlace;
    hide Enabled;
    hide Disciplined;
    hide RecordsOk;
    hide RunsOk;
    hide TokensOk;
    hide Apply;
    var es := LateStart(a, b, n, now);
    Placings(cfg, inventory, s, a, b, n, now);
    LateReport(cfg, s, a, b, n, now);
    var s1 := FirstPlaced(s, a, n, now);
    var s3 := BothPlaced(s, a, b, n, now);
    ThreeSteps(cfg, inventory, s, es[..3], s1, Apply(s1, Restart), s3);
    HistoryIsSafe(cfg, inventory, s, es[..3]);
    assert [es[3]][1..] == [];
    LegalConcat(cfg, s, es[..3], [es[3]]);
    assert es[..3] + [es[3]] == es;
    Overfilled(cfg.cat, inventory, Apply(s3, es[3]), n);
  }

  /** The two placements are what the ledger of the moment allows. */
  lemma Placings(cfg: Config, inventory: seq<NodeInfo>, s: StoreState, a: string, b: string, n: NodeInfo, now: int)
    requires RunsOk(s) && HoldingsOf(s) == map[] && n.id != ""
    requires a in s.runs && b in s.runs && a != b && s.runs[a].state.Queued? && s.runs[b].state.Queued?
    requires CanPlace(cfg.cat, inventory, map[], s.runs[a], n.id, n.name)
    requires CanPlace(cfg.cat, inventory, map[], s.runs[b], n.id, n.name)
    ensures s.runs[a].id == a
    ensures var es, s1 := LateStart(a, b, n, now), FirstPlaced(s, a, n, now);
      && Enabled(cfg, s, es[0]) && Disciplined(cfg, inventory, s, es[0]) && s1 == Apply(s, es[0])
      && Enabled(cfg, s1, es[1]) && Disciplined(cfg, inventory, s1, es[1])
      && Enabled(cfg, Apply(s1, es[1]), es[2]) && Disciplined(cfg, inventory, Apply(s1, es[1]), es[2])
      && Apply(Apply(s1, es[1]), es[2]) == BothPlaced(s, a, b, n, now)
  {
    hide HoldingsOf;
    hide CanPlace;
    RestartHoldsNothing(FirstPlaced(s, a, n, now));
  }

  lemma WhereTheyAre(s: StoreState, a: string, b: string, n: NodeInfo, now: int)
    requires a in s.runs && b in s.runs && a != b && s.runs[a].id == a && s.runs[b].id == b && s.runs[b].state.Queued?
    ensures var t := BothPlaced(s, a, b, n, now);
      && a in t.runs && t.runs[a].id == a && t.runs[a].state.Queued?
      && b in t.runs && t.runs[b].state.Dispatched? && t.runs[b].nodeId == n.id
  {
    var s1 := FirstPlaced(s, a, n, now);
    assert s1.runs[a].id == a && s1.runs[a].state.Dispatched? && s1.runs[b] == s.runs[b];
  }

  /** The late report is one the code acts on, and puts a second run on the node. */
  lemma LateReport(cfg: Config, s: StoreState, a: string, b: string, n: NodeInfo, now: int)
    requires RunsOk(s) && n.id != ""
    requires a in s.runs && b in s.runs && a != b && s.runs[a].state.Queued? && s.runs[b].state.Queued?
    ensures s.runs[a].id == a && a in BothPlaced(s, a, b, n, now).runs
    ensures var s3, e := BothPlaced(s, a, b, n, now), Start(a, n.id, n.name, now);
      Enabled(cfg, s3, e) && Holding(HoldingsOf(Apply(s3, e)), SitsOn(n.id)) >= 2
  {
    hide HoldingsOf;
    hide BothPlaced;
    WhereTheyAre(s, a, b, n, now);
    LateStartHolds(BothPlaced(s, a, b, n, now), a, b, Start(a, n.id, n.name, now));
  }

  lemma Overfilled(cat: Catalog, inventory: seq<NodeInfo>, s: StoreState, n: NodeInfo)
    requires n in inventory && Holding(HoldingsOf(s), SitsOn(n.id)) > n.slots
    ensures !WithinLimits(cat, inventory, s)
  {
    NodeHolds(s, n.id);
  }

  lemma ThreeSteps(cfg: Config, inventory: seq<NodeInfo>, s: StoreState, es: seq<Event>, s1: StoreState, s2: StoreState, s3: StoreState)
    requires |es| == 3
    requires Enabled(cfg, s, es[0]) && Disciplined(cfg, inventory, s, es[0]) && s1 == Apply(s, es[0])
    requires Enabled(cfg, s1, es[1]) && Disciplined(cfg, inventory, s1, es[1]) && s2 == Apply(s1, es[1])
    requires Enabled(cfg, s2, es[2]) && Disciplined(cfg, inventory, s2, es[2]) && s3 == Apply(s2, es[2])
    ensures Legal(cfg, s, es) && AllDisciplined(cfg, inventory, s, es) && ApplyAll(cfg, s, es) == s3
  {
    hide Enabled;
    hide Disciplined;
    hide Apply;
    assert es[1..][0] == es[1] && es[1..][1..] == es[2..] && es[2..][0] == es[2] && es[2..][1..] == [];
    assert Legal(cfg, s3, es[2..][1..]);
    assert Legal(cfg, s2, es[2..]) && ApplyAll(cfg, s2, es[2..]) == s3 && AllDisciplined(cfg, inventory, s2, es[2..]);
    assert Legal(cfg, s1, es[1..]) && ApplyAll(cfg, s1, es[1..]) == s3 && AllDisciplined(cfg, inventory, s1, es[1..]);
  }

  lemma LateStartHolds(s: StoreState, a: string, b: string, e: Event)
    requires e.Start? && e.id == a && e.nodeId != "" && a in s.runs && b in s.runs && a != b && s.runs[a].id == a
    requires s.runs[b].state.Dispatched? && s.runs[b].nodeId == e.nodeId
    ensures Holding(HoldingsOf(Apply(s, e)), SitsOn(e.nodeId)) >= 2
  {
    var h := HoldingsOf(Apply(s, e));
    assert {a, b} <= Safety.Held(h, SitsOn(e.nodeId));
    SmallerSet({a, b}, Safety.Held(h, SitsOn(e.nodeId)));
  }

  // ------------------------------------------------------------- a small lab

  const LAB_POOL := Pool("p", "", Process, "", "", ["run"], [], "", map[], "", Validation.DEFAULT_CACHE, "", [])
  const LAB := Catalog([LAB_POOL], [Node("n", "p")], [], [], [])
  const LAB_NODE := NodeInfo("n", "n", 1, true, map[])
  const LAB_CONFIG := Config(LAB, 60, 0)

  function LabSuite(name: string): SuiteSpec {
    SuiteSpec(name, "p", [], map[], 0, None, Unset)
  }

  function LabRegression(totals: Totals): Regression {
    Regression("g", "u", 0, RegPending, 0, None, None, [LabSuite("a"), LabSuite("b")], totals)
  }

  function LabRun(totals: Totals, name: string): Run {
    NewRun(LAB_CONFIG, LabRegression(totals), LabSuite(name), 1, name, name, 0)
  }

  function LabSubmission(totals: Totals): Event {
    Event.Submit(LabRegression(totals), [LabRun(totals, "a"), LabRun(totals, "b")])
  }

  lemma LabIsValid()
    ensures Validation.Valid(LAB) && Validation.Complete(LAB) == LAB && ValidRules(LAB)
  {
  }

  lemma LabPlaces(totals: Totals, name: string)
    ensures CanPlace(LAB, [LAB_NODE], map[], LabRun(totals, name), "n", "n")
  {
    var l := LedgerOf(LAB, [LAB_NODE], map[], []);
    assert Lists(map[], []);
    assert ClaimsAt(map[], []) == [];
    assert l == Idle(LAB, [LAB_NODE]);
    assert [LAB_NODE][..0] == [];
    assert l == AddNode(Idle(LAB, []), LAB_NODE);
    NoRulesBlock(l, LabRun(totals, name), Some("n"));
  }

  lemma NoRulesBlock(l: LedgerState, r: Run, node: Option<string>)
    requires l.cat.quotas == []
    ensures !Blocked(l, r, node)
  {
    forall rule ensures !BlockedBy(l, r, node, rule) {
    }
  }

  /** It happens in a valid lab of one node with one slot: two suites are
      submitted, and everything up to the late report is as it should be. */
  lemma ALabIsOverfilled(totals: Totals, now: int)
    ensures Validation.Valid(LAB) && Validation.Complete(LAB) == LAB
    ensures var es := [LabSubmission(totals)] + LateStart("a", "b", LAB_NODE, now);
      && Legal(LAB_CONFIG, EMPTY_STORE, es) && Legal(LAB_CONFIG, EMPTY_STORE, es[..4])
      && AllDisciplined(LAB_CONFIG, [LAB_NODE], EMPTY_STORE, es[..4])
      && WithinLimits(LAB, [LAB_NODE], ApplyAll(LAB_CONFIG, EMPTY_STORE, es[..4]))
      && !WithinLimits(LAB, [LAB_NODE], ApplyAll(LAB_CONFIG, EMPTY_STORE, es))
  {
    hide Safe;
    hide WithinLimits;
    hide CanPlace;
    hide HoldingsOf;
    hide AddRuns;
    hide Indexed;
    hide Enabled;
    hide NewRun;
    var e := LabSubmission(totals);
    var s := Apply(EMPTY_STORE, e);
    LabIsValid();
    LabSubmits(totals);
    EmptyStoreIsSafe(LAB, [LAB_NODE]);
    SafeMeans(LAB, [LAB_NODE], s);
    LabPlaces(totals, "a");
    LabPlaces(totals, "b");
    RestartOverfills(LAB_CONFIG, [LAB_NODE], s, "a", "b", LAB_NODE, now);
    var tail := LateStart("a", "b", LAB_NODE, now);
    var es := [e] + tail;
    assert es[..4] == [e] + tail[..3];
    StartWith(LAB_CONFIG, [LAB_NODE], EMPTY_STORE, e, tail, false);
    StartWith(LAB_CONFIG, [LAB_NODE], EMPTY_STORE, e, tail[..3], true);
  }

  lemma LabIsEnabled(totals: Totals)
    ensures Enabled(LAB_CONFIG, EMPTY_STORE, LabSubmission(totals))
  {
    hide NewRun;
    LabRunsDiffer(totals);
  }

  lemma LabRunsDiffer(totals: Totals)
    ensures LabRun(totals, "a").id == "a" == LabRun(totals, "a").token && LabRun(totals, "b").id == "b" == LabRun(totals, "b").token
    ensures LabRun(totals, "a").queuedAt == 0 == LabRun(totals, "b").queuedAt
    ensures LabRun(totals, "a").state.Queued? && LabRun(totals, "b").state.Queued?
    ensures "a" != "b"
  {
  }

  lemma LabSubmits(totals: Totals)
    ensures Enabled(LAB_CONFIG, EMPTY_STORE, LabSubmission(totals))
    ensures var s := Apply(EMPTY_STORE, LabSubmission(totals));
      && Indexed(s) && HoldingsOf(s) == map[] && HoldingsOf(EMPTY_STORE) == map[]
      && "a" in s.runs && s.runs["a"] == LabRun(totals, "a") && "b" in s.runs && s.runs["b"] == LabRun(totals, "b")
      && s.runs["a"].state.Queued? && s.runs["b"].state.Queued?
  {
    hide NewRun;
    hide Indexed;
    hide Enabled;
    hide HoldingsOf;
    hide ExtendsRecords;
    hide ExtendsTokens;
    var e := LabSubmission(totals);
    LabIsEnabled(totals);
    LabRunsDiffer(totals);
    EmptyStoreIsSafe(LAB, [LAB_NODE]);
    SubmitKeepsIndexed(LAB_CONFIG, EMPTY_STORE, e.reg, e.firsts);
    assert e.firsts[0] in e.firsts && e.firsts[1] in e.firsts;
    SubmitHoldsNothing(LAB_CONFIG, EMPTY_STORE, e);
    NothingHeld();
  }

  lemma NothingHeld()
    ensures HoldingsOf(EMPTY_STORE) == map[]
  {
  }

  lemma StartWith(cfg: Config, inventory: seq<NodeInfo>, s: StoreState, e: Event, es: seq<Event>, pinned: bool)
    requires Enabled(cfg, s, e) && Legal(cfg, Apply(s, e), es)
    requires pinned ==> Disciplined(cfg, inventory, s, e) && AllDisciplined(cfg, inventory, Apply(s, e), es)
    ensures Legal(cfg, s, [e] + es) && ApplyAll(cfg, s, [e] + es) == ApplyAll(cfg, Apply(s, e), es)
    ensures pinned ==> AllDisciplined(cfg, inventory, s, [e] + es)
  {
    hide Enabled;
    hide Disciplined;
    hide Apply;
    assert ([e] + es)[1..] == es;
  }
}
