/** Verdicts and the results behind them: what a passed run is worth, in every
    reachable state. */
module Verdicts {
  import opened Wrappers
  import opened Model
  import opened Lifecycle
  import opened Rollups
  import opened RecordFiles

  ghost predicate AllClean(s: StoreState) {
    forall id <- s.runs :: Clean(s.runs[id])
  }

  ghost predicate AllBalanced(s: StoreState) {
    forall id <- s.runs :: Balanced(s.runs[id].summary)
  }

  // -------------------------------------------------------------- one event

  /** Results recorded on a run that has passed have tests and no failure, and
      a run is passed only on such results. */
  predicate KeepsClean(s: StoreState, e: Event) {
    match e
    case Results(id, summary, _, _, _) => id in s.runs && s.runs[id].state.Passed? ==> CleanSummary(summary)
    case Finish(id, state, _, _) => id in s.runs && state.Passed? ==> CleanSummary(s.runs[id].summary)
    case _ => true
  }

  /** The results an event records balance. */
  predicate KeepsBalanced(e: Event) {
    match e
    case Progress(_, summary) => Balanced(summary)
    case Results(_, summary, _, _, _) => Balanced(summary)
    case _ => true
  }

  /** The event records no results and passes no run. */
  predicate Plain(e: Event) {
    !e.Results? && !e.Progress? && !(e.Finish? && e.state.Passed?)
  }

  lemma EnabledApplies(cfg: Config, s: StoreState, e: Event)
    requires Enabled(cfg, s, e)
    ensures AboutARun(e) ==> e.id in s.runs
    ensures e.Rollup? ==> e.regId in s.regs
  {
  }

  lemma TouchedClean(cfg: Config, s: StoreState, e: Event)
    requires AboutARun(e) && Enabled(cfg, s, e) && Clean(s.runs[e.id])
    ensures Clean(Touched(s.runs[e.id], e)) <==> KeepsClean(s, e)
  {
    hide IsRetryOf;
  }

  /** s' is s with run id changed to r, and perhaps new queued runs without results. */
  ghost predicate Becomes(s: StoreState, s': StoreState, id: string, r: Run) {
    && s.runs.Keys <= s'.runs.Keys && id in s.runs && s'.runs[id] == r
    && (forall x <- s.runs | x != id :: s'.runs[x] == s.runs[x])
    && (forall x <- s'.runs | x !in s.runs :: s'.runs[x].state.Queued? && s'.runs[x].summary == NO_RESULTS)
  }

  /** s' is s with no verdict or result changed, and perhaps new queued runs without results. */
  ghost predicate Aside(s: StoreState, s': StoreState) {
    && s.runs.Keys <= s'.runs.Keys
    && (forall id <- s.runs :: s'.runs[id].summary == s.runs[id].summary && (s'.runs[id].state.Passed? <==> s.runs[id].state.Passed?))
    && (forall id <- s'.runs | id !in s.runs :: s'.runs[id].state.Queued? && s'.runs[id].summary == NO_RESULTS)
  }

  lemma RetryIsNew(cfg: Config, s: StoreState, e: Event)
    requires AboutARun(e) && Enabled(cfg, s, e)
    ensures e.id in s.runs
    ensures e.Finish? && e.retry.Some? ==>
              e.retry.value.id !in s.runs && e.retry.value.state.Queued? && e.retry.value.summary == NO_RESULTS
  {
  }

  lemma EventBecomes(cfg: Config, s: StoreState, e: Event)
    requires RunsOk(s) && AboutARun(e) && Enabled(cfg, s, e)
    ensures Becomes(s, Apply(s, e), e.id, Touched(s.runs[e.id], e))
  {
    hide Touched;
    hide Enabled;
    RetryIsNew(cfg, s, e);
    TouchedKeepsIdentity(s.runs[e.id], e);
  }

  lemma FirstsAreQueued(cfg: Config, s: StoreState, e: Event)
    requires Enabled(cfg, s, e) && e.Submit?
    ensures forall r <- e.firsts :: r.state.Queued? && r.summary == NO_RESULTS
  {
    hide FreshRun;
  }

  lemma SubmitStaysAside(cfg: Config, s: StoreState, e: Event)
    requires Indexed(s) && Enabled(cfg, s, e) && e.Submit?
    ensures Aside(s, Apply(s, e))
  {
    hide RecordsOk;
    hide RunsOk;
    hide TokensOk;
    hide ExtendsTokens;
    hide ExtendsRecords;
    hide FirstAttempts;
    SubmitKeepsIndexed(cfg, s, e.reg, e.firsts);
    FirstsAreQueued(cfg, s, e);
    var s' := Apply(s, e);
    forall id <- s'.runs | id !in s.runs ensures s'.runs[id].state.Queued? && s'.runs[id].summary == NO_RESULTS {
      var r :| r in e.firsts && r.id == id;
    }
  }

  /** Every other event leaves results and verdicts alone. */
  lemma OtherEvents(cfg: Config, s: StoreState, e: Event)
    requires Indexed(s) && Enabled(cfg, s, e) && !AboutARun(e)
    ensures Aside(s, Apply(s, e))
  {
    hide Indexed;
    if e.Submit? {
      SubmitStaysAside(cfg, s, e);
    }
  }

  /** What each run of s' is worth, the others being as they were. */
  lemma Elsewhere(s: StoreState, s': StoreState, id: string, r: Run, x: string)
    requires Becomes(s, s', id, r) && x in s'.runs && x != id
    ensures x in s.runs ==> s'.runs[x] == s.runs[x]
    ensures x !in s.runs ==> Clean(s'.runs[x]) && Balanced(s'.runs[x].summary)
  {
  }

  lemma CleanAlong(s: StoreState, s': StoreState, id: string, r: Run)
    requires Becomes(s, s', id, r)
    ensures AllClean(s) ==> (AllClean(s') <==> Clean(r))
    ensures Clean(r) == Clean(s.runs[id]) ==> (AllClean(s') <==> AllClean(s))
    ensures AllBalanced(s) ==> (AllBalanced(s') <==> Balanced(r.summary))
  {
    hide Clean;
    hide Balanced;
    forall x <- s'.runs | x != id
      ensures x in s.runs ==> s'.runs[x] == s.runs[x]
      ensures x !in s.runs ==> Clean(s'.runs[x]) && Balanced(s'.runs[x].summary)
    {
      Elsewhere(s, s', id, r, x);
    }
    assert forall x <- s.runs | x != id :: x in s'.runs;
  }

  lemma CleanAside(s: StoreState, s': StoreState)
    requires Aside(s, s')
    ensures AllClean(s') <==> AllClean(s)
    ensures AllBalanced(s') <==> AllBalanced(s)
  {
    hide Clean;
    hide Balanced;
    if AllClean(s) {
      forall id <- s'.runs ensures Clean(s'.runs[id]) {
        SameVerdict(s, s', id);
      }
    }
    if AllClean(s') {
      forall id <- s.runs ensures Clean(s.runs[id]) {
        SameVerdict(s, s', id);
      }
    }
    if AllBalanced(s) {
      forall id <- s'.runs ensures Balanced(s'.runs[id].summary) {
        SameVerdict(s, s', id);
      }
    }
    if AllBalanced(s') {
      forall id <- s.runs ensures Balanced(s.runs[id].summary) {
        SameVerdict(s, s', id);
      }
    }
  }

  lemma SameVerdict(s: StoreState, s': StoreState, id: string)
    requires Aside(s, s') && id in s'.runs
    ensures id in s.runs ==> Clean(s'.runs[id]) == Clean(s.runs[id]) && s'.runs[id].summary == s.runs[id].summary
    ensures id !in s.runs ==> Clean(s'.runs[id]) && Balanced(s'.runs[id].summary)
  {
  }

  /** An event keeps every passed run clean if and only if it is one of those. */
  lemma EventKeepsClean(cfg: Config, s: StoreState, e: Event)
    requires Indexed(s) && Enabled(cfg, s, e) && AllClean(s)
    ensures AllClean(Apply(s, e)) <==> KeepsClean(s, e)
  {
    hide Enabled;
    hide RecordsOk;
    hide RunsOk;
    hide TokensOk;
    hide Becomes;
    hide Aside;
    hide Apply;
    hide Clean;
    EnabledApplies(cfg, s, e);
    if AboutARun(e) {
      EventBecomes(cfg, s, e);
      TouchedClean(cfg, s, e);
      CleanAlong(s, Apply(s, e), e.id, Touched(s.runs[e.id], e));
    } else {
      OtherEvents(cfg, s, e);
      CleanAside(s, Apply(s, e));
    }
  }

  lemma EventKeepsBalanced(cfg: Config, s: StoreState, e: Event)
    requires Indexed(s) && Enabled(cfg, s, e) && AllBalanced(s)
    ensures AllBalanced(Apply(s, e)) <==> KeepsBalanced(e)
  {
    hide Enabled;
    hide RecordsOk;
    hide RunsOk;
    hide TokensOk;
    hide Becomes;
    hide Aside;
    hide Apply;
    hide Balanced;
    EnabledApplies(cfg, s, e);
    if AboutARun(e) {
      EventBecomes(cfg, s, e);
      CleanAlong(s, Apply(s, e), e.id, Touched(s.runs[e.id], e));
    } else {
      OtherEvents(cfg, s, e);
      CleanAside(s, Apply(s, e));
    }
  }

  lemma PlainTouch(cfg: Config, s: StoreState, e: Event)
    requires AboutARun(e) && Enabled(cfg, s, e) && Plain(e)
    ensures Clean(Touched(s.runs[e.id], e)) == Clean(s.runs[e.id])
  {
    hide IsRetryOf;
  }

  /** Plain events neither spoil a clean store nor mend one. */
  lemma PlainChangesNothing(cfg: Config, s: StoreState, e: Event)
    requires Indexed(s) && Enabled(cfg, s, e) && Plain(e)
    ensures AllClean(Apply(s, e)) <==> AllClean(s)
  {
    hide Enabled;
    hide RecordsOk;
    hide RunsOk;
    hide TokensOk;
    hide Becomes;
    hide Aside;
    hide Apply;
    hide Clean;
    EnabledApplies(cfg, s, e);
    if AboutARun(e) {
      EventBecomes(cfg, s, e);
      PlainTouch(cfg, s, e);
      CleanAlong(s, Apply(s, e), e.id, Touched(s.runs[e.id], e));
    } else {
      OtherEvents(cfg, s, e);
      CleanAside(s, Apply(s, e));
    }
  }

  lemma {:induction false} PlainHistory(cfg: Config, s: StoreState, es: seq<Event>)
    requires Indexed(s) && Legal(cfg, s, es) && forall e <- es :: Plain(e)
    ensures AllClean(ApplyAll(cfg, s, es)) <==> AllClean(s)
    decreases |es|
  {
    hide Enabled;
    hide Plain;
    hide AllClean;
    hide Indexed;
    hide Apply;
    if es != [] {
      EnabledApplies(cfg, s, es[0]);
      PlainChangesNothing(cfg, s, es[0]);
      EventKeepsIndexed(cfg, s, es[0]);
      PlainHistory(cfg, Apply(s, es[0]), es[1..]);
    }
  }

  // ---------------------------------------------------------- every history

  /** The summary was read from test reports. */
  ghost predicate Parsed(sum: Summary) {
    exists reports :: sum == ReadAll(reports)
  }

  /** The runner could have drawn the verdict from these results. */
  ghost predicate Drawn(sum: Summary, state: RunState) {
    exists exitCode, timedOut, runErr :: state == Classify(exitCode, timedOut, runErr, sum)
  }

  /** Passing is all there is to be wrong about: errors and timeouts need no
      results, and the only other verdict, failed, is never the master's own. */
  lemma DrawnMeans(sum: Summary, state: RunState)
    requires state in {Passed, Errored, Timeout}
    ensures Drawn(sum, state) <==> (state.Passed? ==> CleanSummary(sum))
  {
    assert Classify(0, true, false, sum) == Timeout;
    assert Classify(0, false, true, sum) == Errored;
    if CleanSummary(sum) {
      assert Classify(0, false, false, sum) == Passed;
    }
  }

  /** Summaries come from reports, verdicts from the results on record, and a
      run that has passed is not reported on again with anything worse. */
  ghost predicate Reported(s: StoreState, e: Event) {
    match e
    case Progress(_, summary) => Parsed(summary)
    case Results(id, summary, _, _, _) => Parsed(summary) && (id in s.runs && s.runs[id].state.Passed? ==> CleanSummary(summary))
    case Finish(id, state, _, _) => id in s.runs ==> Drawn(s.runs[id].summary, state)
    case _ => true
  }

  ghost predicate AllReported(cfg: Config, s: StoreState, es: seq<Event>)
    requires Legal(cfg, s, es)
    decreases |es|
  {
    es == [] || (Reported(s, es[0]) && AllReported(cfg, Apply(s, es[0]), es[1..]))
  }

  lemma ReportedKeeps(s: StoreState, e: Event)
    requires Reported(s, e)
    ensures KeepsClean(s, e) && KeepsBalanced(e)
  {
    if e.Progress? || e.Results? {
      var reports :| e.summary == ReadAll(reports);
      AllReportsAreBalanced(reports);
    }
  }

  /** Every such history, restarts included, keeps passed runs clean and all results balanced. */
  lemma {:induction false} HistoryKeepsClean(cfg: Config, s: StoreState, es: seq<Event>)
    requires Indexed(s) && Legal(cfg, s, es) && AllReported(cfg, s, es)
    requires AllClean(s) && AllBalanced(s)
    ensures Indexed(ApplyAll(cfg, s, es)) && AllClean(ApplyAll(cfg, s, es)) && AllBalanced(ApplyAll(cfg, s, es))
    decreases |es|
  {
    hide Enabled;
    hide Reported;
    hide Indexed;
    hide AllClean;
    hide AllBalanced;
    if es != [] {
      EnabledApplies(cfg, s, es[0]);
      ReportedKeeps(s, es[0]);
      EventKeepsClean(cfg, s, es[0]);
      EventKeepsBalanced(cfg, s, es[0]);
      EventKeepsIndexed(cfg, s, es[0]);
      HistoryKeepsClean(cfg, Apply(s, es[0]), es[1..]);
    }
  }

  /** So in every state reachable from an empty store the test counts of a
      regression balance, and one that passed has no failure and at least one
      test per suite. */
  lemma ReachableTotals(cfg: Config, es: seq<Event>, g: string, now: int)
    requires Legal(cfg, EMPTY_STORE, es) && AllReported(cfg, EMPTY_STORE, es)
    requires g in ApplyAll(cfg, EMPTY_STORE, es).regs && ApplyAll(cfg, EMPTY_STORE, es).regs[g].reg.suites != []
    ensures ListsKnownRuns(ApplyAll(cfg, EMPTY_STORE, es), g)
    ensures var s := ApplyAll(cfg, EMPTY_STORE, es); var h := RolledUp(s.regs[g].reg, RunsIn(s, g), now);
      && h.totals.tests == h.totals.passed + h.totals.failed + h.totals.skipped
      && (h.state == RegPassed ==> h.totals.failed == 0 && h.totals.tests >= h.totals.suites)
  {
    hide RolledUp;
    hide TotalsOf;
    var s := ApplyAll(cfg, EMPTY_STORE, es);
    HistoryKeepsClean(cfg, EMPTY_STORE, es);
    KnownRuns(s, g);
    forall r <- RunsIn(s, g) ensures Balanced(r.summary) && Clean(r) {
      var i :| 0 <= i < |RunsIn(s, g)| && RunsIn(s, g)[i] == r;
      assert r == s.runs[s.regs[g].runs[i]];
    }
    TotalsAddUp(s.regs[g].reg, RunsIn(s, g), now);
  }

  // ------------------------------------------------------- how it goes wrong

  /** Any run in flight can be passed over failures on record: its runner
      reports them as progress and falls silent, and its task ends well. */
  lemma PollPassesFailures(cfg: Config, s: StoreState, id: string, sum: Summary, now: int)
    requires RunsOk(s) && id in s.runs && s.runs[id].state.InFlight() && sum.tests > 0 && sum.failed + sum.errors > 0
    ensures var es := [Progress(id, sum), Finish(id, Passed, now, None)];
      && Legal(cfg, s, es)
      && id in ApplyAll(cfg, s, es).runs && ApplyAll(cfg, s, es).runs[id].state.Passed?
      && ApplyAll(cfg, s, es).runs[id].summary == sum && !AllClean(ApplyAll(cfg, s, es))
  {
    hide Enabled;
    hide RunsOk;
    var e, f := Progress(id, sum), Finish(id, Passed, now, None);
    PassedUnheard(cfg, s, id, sum, now);
    assert [e, f][1..] == [f] && [f][1..] == [];
    var m := Apply(s, e);
    OneEvent(cfg, m, f);
    assert [e, f][0] == e;
    assert !Clean(Apply(m, f).runs[id]);
  }

  lemma OneEvent(cfg: Config, s: StoreState, e: Event)
    requires Enabled(cfg, s, e)
    ensures Legal(cfg, s, [e]) && ApplyAll(cfg, s, [e]) == Apply(s, e)
  {
    hide Enabled;
    assert [e][1..] == [] && [e][0] == e;
  }

  lemma PassedUnheard(cfg: Config, s: StoreState, id: string, sum: Summary, now: int)
    requires RunsOk(s) && id in s.runs && s.runs[id].state.InFlight()
    ensures var e, f := Progress(id, sum), Finish(id, Passed, now, None);
      && Enabled(cfg, s, e) && Enabled(cfg, Apply(s, e), f)
      && id in Apply(Apply(s, e), f).runs
      && Apply(Apply(s, e), f).runs[id] == s.runs[id].(summary := sum, state := Passed, finishedAt := Some(now))
  {
  }

  /** Any passed run can lose its clean results to a report that comes late. */
  lemma LateReportSpoils(cfg: Config, s: StoreState, id: string, sum: Summary, now: int)
    requires id in s.runs && s.runs[id].state.Passed? && !CleanSummary(sum) && s.runs[id].id == id
    ensures var e := Results(id, sum, "", "", now);
      && Enabled(cfg, s, e) && id in Apply(s, e).runs && Apply(s, e).runs[id].state.Passed? && !AllClean(Apply(s, e))
  {
    var t := Apply(s, Results(id, sum, "", "", now));
    assert !Clean(t.runs[id]);
  }

  /** Then a regression is passed with failures: one of a single suite, rolled up on such a run. */
  lemma PassedWithFailures(reg: Regression, r: Run, now: int)
    requires |reg.suites| == 1 && r.suite == reg.suites[0].name && r.state.Passed? && r.summary.failed + r.summary.errors > 0
    ensures var h := RolledUp(reg, [r], now);
      h.state == RegPassed && h.totals.failed == r.summary.failed + r.summary.errors
  {
    assert [r][..0] == [];
    assert Latest([r]) == map[r.suite := r];
    assert reg.suites[..0] == [];
    TallyNext(reg.suites, Latest([r]), 0);
    assert reg.suites[..1] == reg.suites;
  }
}
