/** The life of runs as a step machine: every change the scheduler makes to the
    store, when it may happen, and what every history of them keeps. */
module Lifecycle {
  import opened Wrappers
  import opened Counting
  import opened Catalogs
  import opened Model

  datatype Config = Config(cat: Catalog, defaultTimeout: nat, defaultRetries: int)

  /** A queued attempt of a suite. */
  function NewRun(cfg: Config, reg: Regression, su: SuiteSpec, attempt: int, id: string, token: string, now: int): Run {
    Run(id, reg.id, su.name, attempt,
        if su.retries.None? && cfg.defaultRetries > 0 then cfg.defaultRetries + 1 else su.MaxAttempts(),
        su.pool, Queued, reg.priority, reg.user, now, None, None, None, "", "", NO_RESULTS, token, su)
  }

  /** A queued attempt of the suite as it starts out: nothing has happened to it. */
  predicate StartsOut(reg: Regression, su: SuiteSpec, attempt: int, now: int, r: Run) {
    && r.regressionId == reg.id && r.user == reg.user && r.priority == reg.priority
    && r.suite == su.name && r.pool == su.pool && r.spec == su && r.attempt == attempt
    && r.state == Queued && r.queuedAt == now && r.token != ""
    && r.dispatchedAt == None && r.startedAt == None && r.finishedAt == None
    && r.nodeId == "" && r.nodeName == ""
    && r.summary.tests == 0 && r.summary.passed == 0 && r.summary.failed == 0 && r.summary.errors == 0 && r.summary.skipped == 0
  }

  datatype Event =
    // A regression and the first attempt of each of its suites.
    | Submit(reg: Regression, firsts: seq<Run>)
    // A queued run is handed to a node.
    | Place(id: string, nodeId: string, nodeName: string, now: int)
    // A run is seen to have started, possibly naming its node.
    | Start(id: string, nodeId: string, nodeName: string, now: int)
    // The backend's poll finds a dispatched run running.
    | Observe(id: string, now: int)
    // The backend's poll names a node.
    | Relocate(id: string, nodeId: string, nodeName: string)
    // Results so far.
    | Progress(id: string, summary: Summary)
    // Final results, recorded just before the verdict.
    | Results(id: string, summary: Summary, nodeId: string, nodeName: string, now: int)
    // The verdict, with the retry it queues.
    | Finish(id: string, state: RunState, now: int, retry: Option<Run>)
    | Cancel(id: string, now: int)
    // The regression's header is recomputed.
    | Rollup(regId: string, header: Regression)
    // The master restarts on the same store.
    | Restart

  function PutRun(s: StoreState, r: Run): StoreState {
    s.(runs := s.runs[r.id := r])
  }

  /** Append a run to its regression; nothing happens without one. */
  function AddRun(s: StoreState, r: Run): StoreState {
    if r.regressionId !in s.regs then s
    else
      var rec := s.regs[r.regressionId];
      StoreState(s.regs[r.regressionId := rec.(runs := rec.runs + [r.id])],
                 s.runs[r.id := r],
                 if r.token == "" then s.tokens else s.tokens[r.token := r.id])
  }

  function AddRuns(s: StoreState, rs: seq<Run>): StoreState {
    if rs == [] then s else AddRun(AddRuns(s, rs[..|rs| - 1]), rs[|rs| - 1])
  }

  /** A record whose runs are not listed yet. */
  function AddRegression(s: StoreState, reg: Regression): StoreState {
    s.(regs := s.regs[reg.id := Record(reg, [])])
  }

  function Placed(r: Run, nodeId: string, nodeName: string, now: int): Run {
    r.(state := Dispatched, dispatchedAt := Some(now), nodeId := nodeId, nodeName := nodeName)
  }

  function AtNode(r: Run, nodeId: string, nodeName: string): Run {
    if nodeId == "" then r else r.(nodeId := nodeId, nodeName := nodeName)
  }

  function StartedBy(r: Run, now: int): Run {
    if r.startedAt.None? then r.(startedAt := Some(now)) else r
  }

  /** What a master that restarts makes of a run. */
  function Requeued(r: Run): Run {
    if r.state.InFlight() then r.(state := Queued, dispatchedAt := None, startedAt := None) else r
  }

  /** The event concerns one run. */
  predicate AboutARun(e: Event) {
    !e.Submit? && !e.Rollup? && !e.Restart?
  }

  /** The run an event is about, as the event leaves it. */
  function Touched(r: Run, e: Event): Run
    requires AboutARun(e)
  {
    match e
    case Place(_, nodeId, nodeName, now) => Placed(r, nodeId, nodeName, now)
    case Start(_, nodeId, nodeName, now) => AtNode(StartedBy(r.(state := Running), now), nodeId, nodeName)
    case Observe(_, now) => r.(state := Running, startedAt := Some(now))
    case Relocate(_, nodeId, nodeName) => r.(nodeId := nodeId, nodeName := nodeName)
    case Progress(_, summary) => r.(summary := summary)
    case Results(_, summary, nodeId, nodeName, now) => AtNode(StartedBy(r.(summary := summary), now), nodeId, nodeName)
    case Finish(_, state, now, _) => r.(state := state, finishedAt := Some(now))
    case Cancel(_, now) => r.(state := Canceled, finishedAt := Some(now))
  }

  function Apply(s: StoreState, e: Event): StoreState
    requires AboutARun(e) ==> e.id in s.runs
    requires e.Rollup? ==> e.regId in s.regs
  {
    match e
    case Submit(reg, firsts) => AddRuns(AddRegression(s, reg), firsts)
    case Rollup(regId, header) => s.(regs := s.regs[regId := s.regs[regId].(reg := header)])
    case Restart => s.(runs := map id | id in s.runs :: Requeued(s.runs[id]))
    case _ =>
      var s' := PutRun(s, Touched(s.runs[e.id], e));
      if e.Finish? && e.retry.Some? then AddRun(s', e.retry.value) else s'
  }

  ghost predicate FreshRun(s: StoreState, r: Run) {
    r.id !in s.runs && r.token != "" && r.token !in s.tokens
  }

  /** The attempt after r, as a verdict queues it. */
  ghost predicate IsRetryOf(cfg: Config, s: StoreState, r: Run, retry: Run) {
    && FreshRun(s, retry)
    && r.regressionId in s.regs
    && retry == NewRun(cfg, s.regs[r.regressionId].reg, r.spec, r.attempt + 1, retry.id, retry.token, retry.queuedAt)
                  .(maxAttempts := r.maxAttempts)
  }

  ghost predicate DistinctSuites(suites: seq<SuiteSpec>) {
    forall i, j | 0 <= i < j < |suites| :: suites[i].name != suites[j].name
  }

  /** firsts are the first attempts of the regression's suites, all fresh. */
  ghost predicate FirstAttempts(cfg: Config, s: StoreState, reg: Regression, firsts: seq<Run>) {
    && |firsts| == |reg.suites|
    && (forall i | 0 <= i < |firsts| ::
          && FreshRun(s, firsts[i])
          && firsts[i] == NewRun(cfg, reg, reg.suites[i], 1, firsts[i].id, firsts[i].token, firsts[i].queuedAt))
    && (forall i, j | 0 <= i < j < |firsts| :: firsts[i].id != firsts[j].id && firsts[i].token != firsts[j].token)
  }

  /** When the code takes the step. A runner that reports a verdict reports one
      that classify produces. */
  ghost predicate Enabled(cfg: Config, s: StoreState, e: Event) {
    match e
    case Submit(reg, firsts) =>
      && reg.id !in s.regs
      && DistinctSuites(reg.suites)
      && FirstAttempts(cfg, s, reg, firsts)
    case Place(id, _, _, _) => id in s.runs && s.runs[id].state.Queued?
    case Start(id, _, _, _) => id in s.runs && !s.runs[id].state.Terminal()
    case Observe(id, _) => id in s.runs && s.runs[id].state.Dispatched?
    case Relocate(id, _, _) => id in s.runs
    case Progress(id, _) => id in s.runs && s.runs[id].state.InFlight()
    case Results(id, _, _, _, _) => id in s.runs
    case Finish(id, state, _, retry) =>
      && id in s.runs
      && !s.runs[id].state.Terminal()
      && state.Terminal() && !state.Canceled?
      && (retry.Some? <==> state.Retryable() && s.runs[id].attempt < s.runs[id].maxAttempts)
      && (retry.Some? ==> IsRetryOf(cfg, s, s.runs[id], retry.value))
    case Cancel(id, _) => id in s.runs && !s.runs[id].state.Terminal()
    case Rollup(regId, header) =>
      regId in s.regs && header.id == regId && header.suites == s.regs[regId].reg.suites
      && header.priority == s.regs[regId].reg.priority && header.user == s.regs[regId].reg.user
    case Restart => true
  }

  /** A history: every event was enabled where it happened. */
  ghost predicate Legal(cfg: Config, s: StoreState, es: seq<Event>)
    decreases |es|
  {
    if es == [] then true
    else Enabled(cfg, s, es[0]) && Legal(cfg, Apply(s, es[0]), es[1..])
  }

  ghost function ApplyAll(cfg: Config, s: StoreState, es: seq<Event>): StoreState
    requires Legal(cfg, s, es)
    decreases |es|
  {
    if es == [] then s else ApplyAll(cfg, Apply(s, es[0]), es[1..])
  }

  lemma {:induction false} LegalConcat(cfg: Config, s: StoreState, es: seq<Event>, fs: seq<Event>)
    requires Legal(cfg, s, es) && Legal(cfg, ApplyAll(cfg, s, es), fs)
    ensures Legal(cfg, s, es + fs)
    ensures ApplyAll(cfg, s, es + fs) == ApplyAll(cfg, ApplyAll(cfg, s, es), fs)
    decreases |es|
  {
    if es == [] {
      assert es + fs == fs;
    } else {
      LegalConcat(cfg, Apply(s, es[0]), es[1..], fs);
      assert (es + fs)[1..] == es[1..] + fs;
    }
  }

  // ------------------------------------------------------------------ indexes

  /** Each record lists runs of its own, each once. */
  ghost predicate RecordsOk(s: StoreState) {
    forall g <- s.regs ::
      && s.regs[g].reg.id == g
      && DistinctSuites(s.regs[g].reg.suites)
      && Distinct(s.regs[g].runs)
      && forall id <- s.regs[g].runs :: id in s.runs && s.runs[id].regressionId == g
  }

  /** Each run is listed, under its own id, in its regression's record, and
      carries the spec of its suite. */
  ghost predicate RunsOk(s: StoreState) {
    forall id <- s.runs ::
      && s.runs[id].id == id
      && s.runs[id].regressionId in s.regs
      && id in s.regs[s.runs[id].regressionId].runs
      && s.runs[id].spec in s.regs[s.runs[id].regressionId].reg.suites
      && s.runs[id].suite == s.runs[id].spec.name
  }

  ghost predicate TokensOk(s: StoreState) {
    && (forall t <- s.tokens :: t != "" && s.tokens[t] in s.runs && s.runs[s.tokens[t]].token == t)
    && (forall id <- s.runs | s.runs[id].token != "" :: s.runs[id].token in s.tokens && s.tokens[s.runs[id].token] == id)
  }

  /** Runs, records and tokens index each other exactly. */
  ghost predicate Indexed(s: StoreState) {
    RecordsOk(s) && RunsOk(s) && TokensOk(s)
  }

  ghost predicate SameIdentity(a: Run, b: Run) {
    && a.id == b.id && a.regressionId == b.regressionId && a.token == b.token
    && a.suite == b.suite && a.spec == b.spec
    && a.attempt == b.attempt && a.maxAttempts == b.maxAttempts
  }

  lemma PutKeepsRecords(s: StoreState, r: Run)
    requires RecordsOk(s) && r.id in s.runs && SameIdentity(r, s.runs[r.id])
    ensures RecordsOk(PutRun(s, r))
  {
  }

  lemma PutKeepsRuns(s: StoreState, r: Run)
    requires RunsOk(s) && r.id in s.runs && SameIdentity(r, s.runs[r.id])
    ensures RunsOk(PutRun(s, r))
  {
  }

  lemma PutKeepsTokens(s: StoreState, r: Run)
    requires TokensOk(s) && r.id in s.runs && SameIdentity(r, s.runs[r.id])
    ensures TokensOk(PutRun(s, r))
  {
  }

  lemma PutKeepsIndexed(s: StoreState, r: Run)
    requires Indexed(s) && r.id in s.runs && SameIdentity(r, s.runs[r.id])
    ensures Indexed(PutRun(s, r))
  {
    PutKeepsRecords(s, r);
    PutKeepsRuns(s, r);
    PutKeepsTokens(s, r);
  }

  lemma AddKeepsRecords(s: StoreState, r: Run)
    requires RecordsOk(s) && FreshRun(s, r)
    ensures RecordsOk(AddRun(s, r))
  {
    if r.regressionId in s.regs {
      assert r.id !in s.regs[r.regressionId].runs;
    }
  }

  lemma AddKeepsRuns(s: StoreState, r: Run)
    requires RunsOk(s) && FreshRun(s, r)
    requires r.regressionId in s.regs && r.spec in s.regs[r.regressionId].reg.suites && r.suite == r.spec.name
    ensures RunsOk(AddRun(s, r))
  {
    var s' := AddRun(s, r);
    assert forall g <- s.regs :: g in s'.regs && s'.regs[g].reg == s.regs[g].reg;
    assert forall g <- s.regs, id <- s.regs[g].runs :: id in s'.regs[g].runs;
    assert r.id in s'.regs[r.regressionId].runs;
  }

  lemma AddKeepsTokens(s: StoreState, r: Run)
    requires TokensOk(s) && FreshRun(s, r)
    ensures TokensOk(AddRun(s, r))
  {
  }

  lemma AddKeepsIndexed(s: StoreState, r: Run)
    requires Indexed(s) && FreshRun(s, r)
    requires r.regressionId in s.regs && r.spec in s.regs[r.regressionId].reg.suites && r.suite == r.spec.name
    ensures Indexed(AddRun(s, r))
  {
    AddKeepsRecords(s, r);
    AddKeepsRuns(s, r);
    AddKeepsTokens(s, r);
  }

  function Ids(rs: seq<Run>): set<string> {
    set r <- rs :: r.id
  }

  function Tokens(rs: seq<Run>): set<string> {
    set r <- rs :: r.token
  }

  ghost predicate ExtendsRecords(s: StoreState, s': StoreState) {
    s'.regs.Keys == s.regs.Keys && forall g <- s.regs :: s'.regs[g].reg == s.regs[g].reg
  }

  ghost predicate ExtendsRuns(s: StoreState, s': StoreState, rs: seq<Run>) {
    && s'.runs.Keys == s.runs.Keys + Ids(rs)
    && (forall id <- s.runs :: s'.runs[id] == s.runs[id])
    && (forall r <- rs :: s'.runs[r.id] == r)
  }

  ghost predicate ExtendsTokens(s: StoreState, s': StoreState, rs: seq<Run>) {
    && s'.tokens.Keys <= s.tokens.Keys + Tokens(rs)
    && (forall t <- s.tokens | t !in Tokens(rs) :: t in s'.tokens && s'.tokens[t] == s.tokens[t])
  }

  /** What adding runs leaves alone, and what it adds. */
  ghost predicate Extends(s: StoreState, s': StoreState, rs: seq<Run>) {
    ExtendsRecords(s, s') && ExtendsRuns(s, s', rs) && ExtendsTokens(s, s', rs)
  }

  lemma AddRunExtends(s: StoreState, m: StoreState, rest: seq<Run>, r: Run)
    requires Extends(s, m, rest) && r.id !in m.runs && r.regressionId in m.regs
    ensures Extends(s, AddRun(m, r), rest + [r])
  {
    AddRunExtendsRuns(s, m, rest, r);
    AddRunExtendsTokens(s, m, rest, r);
  }

  lemma AddRunExtendsRuns(s: StoreState, m: StoreState, rest: seq<Run>, r: Run)
    requires ExtendsRuns(s, m, rest) && r.id !in m.runs && r.regressionId in m.regs
    ensures ExtendsRuns(s, AddRun(m, r), rest + [r])
  {
    assert Ids(rest + [r]) == Ids(rest) + {r.id};
  }

  lemma AddRunExtendsTokens(s: StoreState, m: StoreState, rest: seq<Run>, r: Run)
    requires ExtendsTokens(s, m, rest) && r.regressionId in m.regs
    ensures ExtendsTokens(s, AddRun(m, r), rest + [r])
  {
    assert Tokens(rest + [r]) == Tokens(rest) + {r.token};
  }

  /** Fresh, pairwise different runs of regression g. */
  ghost predicate Addable(s: StoreState, g: string, rs: seq<Run>) {
    && g in s.regs
    && (forall r <- rs :: FreshRun(s, r) && r.regressionId == g && r.spec in s.regs[g].reg.suites && r.suite == r.spec.name)
    && (forall i, j | 0 <= i < j < |rs| :: rs[i].id != rs[j].id && rs[i].token != rs[j].token)
  }

  lemma {:induction false} AddRunsKeepsIndexed(s: StoreState, g: string, rs: seq<Run>)
    requires Indexed(s) && Addable(s, g, rs)
    ensures Indexed(AddRuns(s, rs))
    ensures Extends(s, AddRuns(s, rs), rs)
  {
    if rs == [] {
      ExtendsItself(s);
    } else {
      assert rs == rs[..|rs| - 1] + [rs[|rs| - 1]];
      AddablePrefix(s, g, rs);
      AddRunsKeepsIndexed(s, g, rs[..|rs| - 1]);
      AddedLast(s, AddRuns(s, rs[..|rs| - 1]), g, rs[..|rs| - 1], rs[|rs| - 1]);
    }
  }

  lemma ExtendsItself(s: StoreState)
    ensures Extends(s, s, [])
  {
    assert Ids([]) == {} && Tokens([]) == {};
  }

  lemma AddablePrefix(s: StoreState, g: string, rs: seq<Run>)
    requires Addable(s, g, rs) && rs != []
    ensures Addable(s, g, rs[..|rs| - 1])
  {
    assert forall r <- rs[..|rs| - 1] :: r in rs;
  }

  lemma StillFresh(s: StoreState, m: StoreState, g: string, rest: seq<Run>, r: Run)
    requires Extends(s, m, rest) && Addable(s, g, rest + [r])
    ensures FreshRun(m, r) && r.regressionId == g && g in m.regs && r.spec in m.regs[g].reg.suites && r.suite == r.spec.name
  {
    assert r == (rest + [r])[|rest|];
    forall q <- rest ensures q.id != r.id && q.token != r.token {
      var i :| 0 <= i < |rest| && rest[i] == q;
      assert (rest + [r])[i] == q;
    }
  }

  lemma AddedLast(s: StoreState, m: StoreState, g: string, rest: seq<Run>, r: Run)
    requires Indexed(m) && Extends(s, m, rest) && Addable(s, g, rest + [r])
    ensures Indexed(AddRun(m, r)) && Extends(s, AddRun(m, r), rest + [r])
  {
    StillFresh(s, m, g, rest, r);
    AddKeepsIndexed(m, r);
    AddRunExtends(s, m, rest, r);
  }

  lemma TouchedKeepsIdentity(r: Run, e: Event)
    requires AboutARun(e)
    ensures SameIdentity(Touched(r, e), r)
  {
  }

  lemma EventKeepsIndexed(cfg: Config, s: StoreState, e: Event)
    requires Indexed(s) && Enabled(cfg, s, e)
    ensures Indexed(Apply(s, e))
  {
    if AboutARun(e) {
      var r := Touched(s.runs[e.id], e);
      TouchedKeepsIdentity(s.runs[e.id], e);
      PutKeepsIndexed(s, r);
      if e.Finish? && e.retry.Some? {
        assert r.regressionId in s.regs;
        AddKeepsIndexed(PutRun(s, r), e.retry.value);
      }
    } else if e.Submit? {
      SubmitKeepsIndexed(cfg, s, e.reg, e.firsts);
    } else if e.Rollup? {
      RollupKeepsIndexed(s, e.regId, e.header);
    } else {
      RestartKeepsIndexed(s);
    }
  }

  lemma RollupKeepsIndexed(s: StoreState, g: string, header: Regression)
    requires Indexed(s) && g in s.regs && header.id == g && header.suites == s.regs[g].reg.suites
    ensures Indexed(Apply(s, Rollup(g, header)))
  {
    var s' := Apply(s, Rollup(g, header));
    assert RecordsOk(s');
    assert RunsOk(s');
    assert TokensOk(s');
  }

  lemma SubmitKeepsIndexed(cfg: Config, s: StoreState, reg: Regression, firsts: seq<Run>)
    requires Indexed(s) && Enabled(cfg, s, Submit(reg, firsts))
    ensures Indexed(Apply(s, Submit(reg, firsts)))
    ensures Extends(AddRegression(s, reg), Apply(s, Submit(reg, firsts)), firsts)
  {
    RegistrationKeepsIndexed(s, reg);
    AddRunsKeepsIndexed(AddRegression(s, reg), reg.id, firsts);
  }

  lemma RegistrationKeepsIndexed(s: StoreState, reg: Regression)
    requires Indexed(s) && reg.id !in s.regs && DistinctSuites(reg.suites)
    ensures Indexed(AddRegression(s, reg))
  {
    var m := AddRegression(s, reg);
    assert RecordsOk(m);
    assert RunsOk(m);
    assert TokensOk(m);
  }

  lemma RestartKeepsIndexed(s: StoreState)
    requires Indexed(s)
    ensures Indexed(Apply(s, Restart))
  {
    RestartKeepsRecords(s);
    RestartKeepsRuns(s);
    RestartKeepsTokens(s);
  }

  lemma RestartKeepsRecords(s: StoreState)
    requires RecordsOk(s)
    ensures RecordsOk(Apply(s, Restart))
  {
  }

  lemma RestartKeepsRuns(s: StoreState)
    requires RunsOk(s)
    ensures RunsOk(Apply(s, Restart))
  {
  }

  lemma RestartKeepsTokens(s: StoreState)
    requires TokensOk(s)
    ensures TokensOk(Apply(s, Restart))
  {
  }
}
