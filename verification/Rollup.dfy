/** Rolling a regression up: totals and state from the newest attempt of each suite. */
module Rollups {
  import opened Wrappers
  import opened Counting
  import opened Model

  // ---------------------------------------------------------- newest attempts

  function Latest(runs: seq<Run>): map<string, Run> {
    if runs == [] then map[]
    else
      var out, r := Latest(runs[..|runs| - 1]), runs[|runs| - 1];
      if r.suite !in out || r.attempt > out[r.suite].attempt then out[r.suite := r] else out
  }

  method LatestPerSuite(runs: seq<Run>) returns (out: map<string, Run>)
    ensures out == Latest(runs)
  {
    out := map[];
    for i := 0 to |runs|
      invariant out == Latest(runs[..i])
    {
      var r := runs[i];
      assert runs[..i + 1][..i] == runs[..i];
      if r.suite !in out || r.attempt > out[r.suite].attempt {
        out := out[r.suite := r];
      }
    }
    assert runs[..|runs|] == runs;
  }

  /** r is a newest attempt of its suite among the runs. */
  ghost predicate IsNewest(runs: seq<Run>, r: Run) {
    r in runs && forall q <- runs | q.suite == r.suite :: q.attempt <= r.attempt
  }

  /** The suites seen are those with runs, each mapped to a newest attempt. */
  lemma {:induction false} LatestIsNewest(runs: seq<Run>)
    ensures forall r <- runs :: r.suite in Latest(runs)
    ensures forall name <- Latest(runs) :: Latest(runs)[name].suite == name && IsNewest(runs, Latest(runs)[name])
  {
    if runs != [] {
      LatestIsNewest(runs[..|runs| - 1]);
      assert runs == runs[..|runs| - 1] + [runs[|runs| - 1]];
    }
  }

  ghost predicate DistinctAttempts(runs: seq<Run>) {
    forall a <- runs, b <- runs | a.suite == b.suite && a.attempt == b.attempt :: a == b
  }

  /** The order of the runs does not matter when no suite has an attempt twice. */
  lemma LatestIgnoresOrder(a: seq<Run>, b: seq<Run>)
    requires DistinctAttempts(a) && forall r :: r in a <==> r in b
    ensures Latest(a) == Latest(b)
  {
    hide Latest;
    LatestIsNewest(a);
    LatestIsNewest(b);
    assert forall name <- Latest(a) :: Latest(a)[name] in b;
    assert forall name <- Latest(b) :: Latest(b)[name] in a;
    forall name <- Latest(a) ensures name in Latest(b) && Latest(b)[name] == Latest(a)[name] {
      var x, y := Latest(a)[name], Latest(b)[name];
      assert x.attempt == y.attempt;
    }
  }

  // ----------------------------------------------------------------- totals

  const NO_TOTALS := Totals(0, 0, 0, 0, 0, 0, 0, 0, 0, 0, 0)

  function CountState(t: Totals, state: RunState): Totals {
    match state
    case Queued => t.(suitesQueued := t.suitesQueued + 1)
    case Dispatched => t.(suitesRunning := t.suitesRunning + 1)
    case Running => t.(suitesRunning := t.suitesRunning + 1)
    case Passed => t.(suitesPassed := t.suitesPassed + 1)
    case Failed => t.(suitesFailed := t.suitesFailed + 1)
    case _ => t.(suitesErrored := t.suitesErrored + 1)
  }

  datatype Tally = Tally(t: Totals, anyStarted: bool, allTerminal: bool)
  {
    /** Count one suite, whose newest attempt is r if it has one. */
    function Add(r: Option<Run>): Tally {
      match r
      case None => Tally(t.(suitesQueued := t.suitesQueued + 1), anyStarted, false)
      case Some(r) =>
        var t' := CountState(t, r.state);
        Tally(t'.(tests := t'.tests + r.summary.tests,
                  passed := t'.passed + r.summary.passed,
                  failed := t'.failed + r.summary.failed + r.summary.errors,
                  skipped := t'.skipped + r.summary.skipped,
                  flaky := t'.flaky + if r.state.Passed? && r.attempt > 1 then 1 else 0),
              anyStarted || !r.state.Queued?,
              allTerminal && r.state.Terminal())
    }
  }

  function NewestOf(latest: map<string, Run>, name: string): Option<Run> {
    if name in latest then Some(latest[name]) else None
  }

  function TallyUp(suites: seq<SuiteSpec>, latest: map<string, Run>): Tally {
    if suites == [] then Tally(NO_TOTALS, false, true)
    else TallyUp(suites[..|suites| - 1], latest).Add(NewestOf(latest, suites[|suites| - 1].name))
  }

  function StateOf(y: Tally): RegressionState {
    if y.allTerminal && y.anyStarted then
      if y.t.suitesErrored > 0 then RegErrored
      else if y.t.suitesFailed > 0 then RegFailed
      else RegPassed
    else if y.anyStarted then RegRunning
    else RegPending
  }

  function TotalsOf(reg: Regression, runs: seq<Run>): Totals {
    TallyUp(reg.suites, Latest(runs)).t.(suites := |reg.suites|)
  }

  /** The regression's header, recomputed. */
  function RolledUp(reg: Regression, runs: seq<Run>, now: int): Regression {
    var state := StateOf(TallyUp(reg.suites, Latest(runs)));
    reg.(totals := TotalsOf(reg, runs),
         state := state,
         finishedAt := if state in {RegErrored, RegFailed, RegPassed} && reg.finishedAt.None? then Some(now) else reg.finishedAt,
         startedAt := if state == RegRunning && reg.startedAt.None? then Some(now) else reg.startedAt)
  }

  method RollUp(reg: Regression, runs: seq<Run>, now: int) returns (header: Regression)
    ensures header == RolledUp(reg, runs, now)
  {
    var latest := LatestPerSuite(runs);
    var t, anyStarted, allTerminal := CountSuites(reg.suites, latest);
    header := reg.(totals := t.(suites := |reg.suites|));
    if allTerminal && anyStarted {
      header := header.(state := if t.suitesErrored > 0 then RegErrored else if t.suitesFailed > 0 then RegFailed else RegPassed);
      if header.finishedAt.None? {
        header := header.(finishedAt := Some(now));
      }
    } else if anyStarted {
      header := header.(state := RegRunning);
      if header.startedAt.None? {
        header := header.(startedAt := Some(now));
      }
    } else {
      header := header.(state := RegPending);
    }
  }

  lemma TallyNext(suites: seq<SuiteSpec>, latest: map<string, Run>, i: nat)
    requires i < |suites|
    ensures TallyUp(suites[..i + 1], latest) == TallyUp(suites[..i], latest).Add(NewestOf(latest, suites[i].name))
  {
    assert suites[..i + 1][..i] == suites[..i];
  }

  method CountSuites(suites: seq<SuiteSpec>, latest: map<string, Run>) returns (t: Totals, anyStarted: bool, allTerminal: bool)
    ensures Tally(t, anyStarted, allTerminal) == TallyUp(suites, latest)
  {
    t := NO_TOTALS;
    anyStarted, allTerminal := false, true;
    assert TallyUp(suites[..0], latest) == Tally(t, anyStarted, allTerminal);
    hide TallyUp;
    for i := 0 to |suites|
      invariant Tally(t, anyStarted, allTerminal) == TallyUp(suites[..i], latest)
    {
      TallyNext(suites, latest, i);
      var name := suites[i].name;
      if name !in latest {
        t := t.(suitesQueued := t.suitesQueued + 1);
        allTerminal := false;
        continue;
      }
      var r := latest[name];
      t := AddSuite(t, r);
      anyStarted := anyStarted || r.state != Queued;
      if r.state == Queued || r.state == Dispatched || r.state == Running {
        allTerminal := false;
      }
    }
    assert suites[..|suites|] == suites;
  }

  method AddSuite(t0: Totals, r: Run) returns (t: Totals)
    ensures forall anyStarted, allTerminal {:trigger Tally(t0, anyStarted, allTerminal)} ::
      Tally(t0, anyStarted, allTerminal).Add(Some(r)).t == t
  {
    t := CountState(t0, r.state);
    t := t.(tests := t.tests + r.summary.tests,
            passed := t.passed + r.summary.passed,
            failed := t.failed + r.summary.failed + r.summary.errors,
            skipped := t.skipped + r.summary.skipped);
    if r.state == Passed && r.attempt > 1 {
      t := t.(flaky := t.flaky + 1);
    }
  }

  // -------------------------------------------------------- what it comes to

  const ENDED := {Passed, Failed, Errored, Timeout, Canceled}
  const BROKEN := {Errored, Timeout, Canceled}
  const STARTED := {Dispatched, Running} + ENDED

  /** Every suite has a newest attempt, in one of these states. */
  ghost predicate Every(suites: seq<SuiteSpec>, latest: map<string, Run>, states: set<RunState>) {
    forall su <- suites :: su.name in latest && latest[su.name].state in states
  }

  ghost predicate AnyOf(suites: seq<SuiteSpec>, latest: map<string, Run>, states: set<RunState>) {
    exists su <- suites :: su.name in latest && latest[su.name].state in states
  }

  lemma AnyOfAppend(rest: seq<SuiteSpec>, su: SuiteSpec, latest: map<string, Run>, states: set<RunState>)
    ensures AnyOf(rest + [su], latest, states) <==>
            AnyOf(rest, latest, states) || (su.name in latest && latest[su.name].state in states)
  {
    if AnyOf(rest, latest, states) {
      var x :| x in rest && x.name in latest && latest[x.name].state in states;
      assert x in rest + [su];
    }
    assert su in rest + [su];
  }

  lemma NoneOf(latest: map<string, Run>, states: set<RunState>)
    ensures !AnyOf([], latest, states)
  {
  }

  /** The five suite counters add up, and whether all is over is told right. */
  lemma {:induction false} CountersAddUp(suites: seq<SuiteSpec>, latest: map<string, Run>)
    ensures var y := TallyUp(suites, latest);
      && y.t.suitesPassed + y.t.suitesFailed + y.t.suitesErrored + y.t.suitesRunning + y.t.suitesQueued == |suites|
      && (y.allTerminal <==> Every(suites, latest, ENDED))
  {
    if suites != [] {
      CountersAddUp(suites[..|suites| - 1], latest);
      assert suites == suites[..|suites| - 1] + [suites[|suites| - 1]];
    }
  }

  /** So is what has started, broken or failed. */
  lemma {:induction false} FlagsMean(suites: seq<SuiteSpec>, latest: map<string, Run>)
    ensures var y := TallyUp(suites, latest);
      && (y.anyStarted <==> AnyOf(suites, latest, STARTED))
      && (y.t.suitesErrored > 0 <==> AnyOf(suites, latest, BROKEN))
      && (y.t.suitesFailed > 0 <==> AnyOf(suites, latest, {Failed}))
  {
    hide AnyOf;
    if suites == [] {
      NoneOf(latest, STARTED);
      NoneOf(latest, BROKEN);
      NoneOf(latest, {Failed});
    } else {
      var rest, su := suites[..|suites| - 1], suites[|suites| - 1];
      FlagsMean(rest, latest);
      assert suites == rest + [su];
      AnyOfAppend(rest, su, latest, STARTED);
      AnyOfAppend(rest, su, latest, BROKEN);
      AnyOfAppend(rest, su, latest, {Failed});
    }
  }

  /** The suite's newest attempt is in one of these states. */
  function NewestIn(latest: map<string, Run>, states: set<RunState>): SuiteSpec -> bool {
    (su: SuiteSpec) => su.name in latest && latest[su.name].state in states
  }

  function NotStarted(latest: map<string, Run>): SuiteSpec -> bool {
    (su: SuiteSpec) => su.name !in latest || latest[su.name].state == Queued
  }

  function PassedLater(latest: map<string, Run>): SuiteSpec -> bool {
    (su: SuiteSpec) => su.name in latest && latest[su.name].state == Passed && latest[su.name].attempt > 1
  }

  /** The sum over the newest attempts of what of says of each summary. */
  function SumOver(suites: seq<SuiteSpec>, latest: map<string, Run>, of: Summary -> nat): nat {
    if suites == [] then 0
    else
      var su := suites[|suites| - 1];
      SumOver(suites[..|suites| - 1], latest, of) + if su.name in latest then of(latest[su.name].summary) else 0
  }

  /** Each counter is the number of suites whose newest attempt is in the states
      it stands for, and each test count the sum over the newest attempts. */
  lemma {:induction false} CountersMean(suites: seq<SuiteSpec>, latest: map<string, Run>)
    ensures var t := TallyUp(suites, latest).t;
      && t.suitesPassed == CountIf(suites, NewestIn(latest, {Passed}))
      && t.suitesFailed == CountIf(suites, NewestIn(latest, {Failed}))
      && t.suitesErrored == CountIf(suites, NewestIn(latest, {Errored, Timeout, Canceled}))
      && t.suitesRunning == CountIf(suites, NewestIn(latest, {Dispatched, Running}))
      && t.suitesQueued == CountIf(suites, NotStarted(latest))
      && t.flaky == CountIf(suites, PassedLater(latest))
  {
    hide Tally.Add;
    hide NewestIn;
    hide NotStarted;
    hide PassedLater;
    if suites != [] {
      var rest := suites[..|suites| - 1];
      CountersMean(rest, latest);
      AddMeans(TallyUp(rest, latest), latest, suites[|suites| - 1]);
    }
  }

  /** One suite more is counted once, and once more if it is flaky. */
  lemma AddMeans(y: Tally, latest: map<string, Run>, su: SuiteSpec)
    ensures var t := y.Add(NewestOf(latest, su.name)).t;
      && t.suitesPassed == y.t.suitesPassed + (if NewestIn(latest, {Passed})(su) then 1 else 0)
      && t.suitesFailed == y.t.suitesFailed + (if NewestIn(latest, {Failed})(su) then 1 else 0)
      && t.suitesErrored == y.t.suitesErrored + (if NewestIn(latest, {Errored, Timeout, Canceled})(su) then 1 else 0)
      && t.suitesRunning == y.t.suitesRunning + (if NewestIn(latest, {Dispatched, Running})(su) then 1 else 0)
      && t.suitesQueued == y.t.suitesQueued + (if NotStarted(latest)(su) then 1 else 0)
      && t.flaky == y.t.flaky + (if PassedLater(latest)(su) then 1 else 0)
  {
  }

  lemma {:induction false} SumsMean(suites: seq<SuiteSpec>, latest: map<string, Run>)
    ensures var t := TallyUp(suites, latest).t;
      && t.tests == SumOver(suites, latest, (s: Summary) => s.tests)
      && t.passed == SumOver(suites, latest, (s: Summary) => s.passed)
      && t.failed == SumOver(suites, latest, (s: Summary) => s.failed + s.errors)
      && t.skipped == SumOver(suites, latest, (s: Summary) => s.skipped)
  {
    if suites != [] {
      SumsMean(suites[..|suites| - 1], latest);
    }
  }

  /** The times of the header: it has finished since it was first found over, and
      has started since it was first found under way. */
  lemma TimesMean(reg: Regression, runs: seq<Run>, now: int)
    ensures var h := RolledUp(reg, runs, now);
      && h.finishedAt == (if reg.finishedAt == None && h.state in {RegPassed, RegFailed, RegErrored} then Some(now) else reg.finishedAt)
      && h.startedAt == (if reg.startedAt == None && h.state == RegRunning then Some(now) else reg.startedAt)
      && h == reg.(state := h.state, totals := h.totals, startedAt := h.startedAt, finishedAt := h.finishedAt)
  {
  }

  /** The verdict on a regression: it is final exactly when every suite's newest
      attempt is; then errored outranks failed, which outranks passed. */
  lemma VerdictMeans(reg: Regression, runs: seq<Run>, now: int)
    requires reg.suites != []
    ensures var h, latest := RolledUp(reg, runs, now), Latest(runs);
      && h.totals.suites == |reg.suites|
      && h.totals.suites == h.totals.suitesPassed + h.totals.suitesFailed + h.totals.suitesErrored
                            + h.totals.suitesRunning + h.totals.suitesQueued
      && (h.state in {RegErrored, RegFailed, RegPassed} <==> Every(reg.suites, latest, ENDED))
      && (h.state == RegErrored <==> Every(reg.suites, latest, ENDED)
                                     && AnyOf(reg.suites, latest, BROKEN))
      && (h.state == RegPassed <==> Every(reg.suites, latest, {Passed}))
      && (h.state == RegPending <==> !AnyOf(reg.suites, latest, STARTED))
  {
    var latest := Latest(runs);
    CountersAddUp(reg.suites, latest);
    FlagsMean(reg.suites, latest);
    EndedMeans(reg.suites, latest);
  }

  /** Ended suites have started, and are all passed unless one broke or failed. */
  lemma EndedMeans(suites: seq<SuiteSpec>, latest: map<string, Run>)
    requires suites != []
    ensures Every(suites, latest, ENDED) ==> AnyOf(suites, latest, STARTED)
    ensures Every(suites, latest, {Passed}) <==>
            Every(suites, latest, ENDED) && !AnyOf(suites, latest, BROKEN) && !AnyOf(suites, latest, {Failed})
  {
    assert suites[0] in suites;
  }

  /** Rolling up again changes nothing. */
  lemma RollUpIsIdempotent(reg: Regression, runs: seq<Run>, now: int, later: int)
    ensures RolledUp(RolledUp(reg, runs, now), runs, later) == RolledUp(reg, runs, now)
  {
  }

  lemma RollUpIgnoresOrder(reg: Regression, a: seq<Run>, b: seq<Run>, now: int)
    requires DistinctAttempts(a) && forall r :: r in a <==> r in b
    ensures RolledUp(reg, a, now) == RolledUp(reg, b, now)
  {
    LatestIgnoresOrder(a, b);
  }

  // ------------------------------------------------------------ test reports

  datatype CaseResult = CaseResult(error: bool, failure: bool, skipped: bool)

  // A <testsuite> with its cases and nested suites.
  datatype Report = Report(cases: seq<CaseResult>, nested: seq<Report>)

  function Merge(a: Summary, b: Summary): Summary {
    Summary(a.tests + b.tests, a.passed + b.passed, a.failed + b.failed, a.errors + b.errors, a.skipped + b.skipped)
  }

  function CaseSummary(c: CaseResult): Summary {
    if c.error then Summary(1, 0, 0, 1, 0)
    else if c.failure then Summary(1, 0, 1, 0, 0)
    else if c.skipped then Summary(1, 0, 0, 0, 1)
    else Summary(1, 1, 0, 0, 0)
  }

  /** The summary of the first n cases. */
  function CasesSummary(cs: seq<CaseResult>, n: nat): Summary
    requires n <= |cs|
  {
    if n == 0 then NO_RESULTS else Merge(CasesSummary(cs, n - 1), CaseSummary(cs[n - 1]))
  }

  function FromSuite(s: Report): Summary
    decreases s, 1
  {
    FromNested(s, |s.nested|)
  }

  /** The summary of the suite's own cases and its first n nested suites. */
  function FromNested(s: Report, n: nat): Summary
    requires n <= |s.nested|
    decreases s, 0, n
  {
    if n == 0 then CasesSummary(s.cases, |s.cases|) else Merge(FromNested(s, n - 1), FromSuite(s.nested[n - 1]))
  }

  method ParseSuite(s: Report) returns (sum: Summary)
    ensures sum == FromSuite(s)
    decreases s
  {
    sum := CountCases(s.cases);
    for i := 0 to |s.nested|
      invariant sum == FromNested(s, i)
    {
      var inner := ParseSuite(s.nested[i]);
      sum := Merge(sum, inner);
    }
  }

  method CountCases(cs: seq<CaseResult>) returns (sum: Summary)
    ensures sum == CasesSummary(cs, |cs|)
  {
    sum := NO_RESULTS;
    for i := 0 to |cs|
      invariant sum == CasesSummary(cs, i)
    {
      sum := Merge(sum, CaseSummary(cs[i]));
    }
  }

  /** Every case is counted once, under exactly one outcome. */
  predicate Balanced(s: Summary) {
    s.tests == s.passed + s.failed + s.errors + s.skipped
  }

  lemma {:induction false} CasesAreBalanced(cs: seq<CaseResult>, n: nat)
    requires n <= |cs|
    ensures Balanced(CasesSummary(cs, n)) && CasesSummary(cs, n).tests == n
  {
    if n > 0 {
      CasesAreBalanced(cs, n - 1);
    }
  }

  /** The cases of a report, its own and those of its nested suites. */
  function AllCases(s: Report): seq<CaseResult>
    decreases s, 1
  {
    NestedCases(s, |s.nested|)
  }

  function NestedCases(s: Report, n: nat): seq<CaseResult>
    requires n <= |s.nested|
    decreases s, 0, n
  {
    if n == 0 then s.cases else NestedCases(s, n - 1) + AllCases(s.nested[n - 1])
  }

  predicate IsError(c: CaseResult) { c.error }

  predicate IsFailure(c: CaseResult) { !c.error && c.failure }

  predicate IsSkipped(c: CaseResult) { !c.error && !c.failure && c.skipped }

  predicate IsPass(c: CaseResult) { !c.error && !c.failure && !c.skipped }

  /** The summary counts the cases: an error before a failure before a skip. */
  ghost predicate Counts(sum: Summary, cs: seq<CaseResult>) {
    && sum.tests == |cs|
    && sum.errors == CountIf(cs, IsError) && sum.failed == CountIf(cs, IsFailure)
    && sum.skipped == CountIf(cs, IsSkipped) && sum.passed == CountIf(cs, IsPass)
  }

  lemma MergeCounts(a: Summary, cs: seq<CaseResult>, b: Summary, ds: seq<CaseResult>)
    requires Counts(a, cs) && Counts(b, ds)
    ensures Counts(Merge(a, b), cs + ds)
  {
    hide IsError;
    hide IsFailure;
    hide IsSkipped;
    hide IsPass;
    hide CountIf;
    CountConcat(cs, ds, IsError);
    CountConcat(cs, ds, IsFailure);
    CountConcat(cs, ds, IsSkipped);
    CountConcat(cs, ds, IsPass);
  }

  lemma {:induction false} CasesAreCounted(cs: seq<CaseResult>, n: nat)
    requires n <= |cs|
    ensures Counts(CasesSummary(cs, n), cs[..n])
  {
    if n > 0 {
      CasesAreCounted(cs, n - 1);
      assert cs[..n][..n - 1] == cs[..n - 1];
    }
  }

  lemma {:induction false} ReportCounts(s: Report)
    ensures Counts(FromSuite(s), AllCases(s))
    decreases s, 1
  {
    NestedAreCounted(s, |s.nested|);
  }

  lemma {:induction false} NestedAreCounted(s: Report, n: nat)
    requires n <= |s.nested|
    ensures Counts(FromNested(s, n), NestedCases(s, n))
    decreases s, 0, n
  {
    hide Counts;
    if n == 0 {
      CasesAreCounted(s.cases, |s.cases|);
      assert s.cases[..|s.cases|] == s.cases;
    } else {
      NestedAreCounted(s, n - 1);
      ReportCounts(s.nested[n - 1]);
      MergeCounts(FromNested(s, n - 1), NestedCases(s, n - 1), FromSuite(s.nested[n - 1]), AllCases(s.nested[n - 1]));
    }
  }

  /** The number of cases in a report, nested suites included. */
  function CaseCount(s: Report): nat
    decreases s, 1
  {
    NestedCount(s, |s.nested|)
  }

  function NestedCount(s: Report, n: nat): nat
    requires n <= |s.nested|
    decreases s, 0, n
  {
    if n == 0 then |s.cases| else NestedCount(s, n - 1) + CaseCount(s.nested[n - 1])
  }

  lemma {:induction false} ReportIsBalanced(s: Report)
    ensures Balanced(FromSuite(s)) && FromSuite(s).tests == CaseCount(s)
    decreases s, 1
  {
    NestedAreBalanced(s, |s.nested|);
  }

  lemma {:induction false} NestedAreBalanced(s: Report, n: nat)
    requires n <= |s.nested|
    ensures Balanced(FromNested(s, n)) && FromNested(s, n).tests == NestedCount(s, n)
    decreases s, 0, n
  {
    if n == 0 {
      CasesAreBalanced(s.cases, |s.cases|);
    } else {
      NestedAreBalanced(s, n - 1);
      ReportIsBalanced(s.nested[n - 1]);
    }
  }

  /** The summary of all reports found. */
  function ReadAll(reports: seq<Report>): Summary {
    if reports == [] then NO_RESULTS else Merge(ReadAll(reports[..|reports| - 1]), FromSuite(reports[|reports| - 1]))
  }

  method ParseAll(reports: seq<Report>) returns (sum: Summary)
    ensures sum == ReadAll(reports)
  {
    sum := NO_RESULTS;
    for i := 0 to |reports|
      invariant sum == ReadAll(reports[..i])
    {
      assert reports[..i + 1][..i] == reports[..i];
      var one := ParseSuite(reports[i]);
      sum := Merge(sum, one);
    }
    assert reports[..|reports|] == reports;
  }

  lemma {:induction false} AllReportsAreBalanced(reports: seq<Report>)
    ensures Balanced(ReadAll(reports))
  {
    if reports != [] {
      AllReportsAreBalanced(reports[..|reports| - 1]);
      ReportIsBalanced(reports[|reports| - 1]);
    }
  }

  /** The verdict the runner draws from the process's end and the parsed results. */
  function Classify(exitCode: int, timedOut: bool, runErr: bool, sum: Summary): (state: RunState)
    ensures state.Terminal() && !state.Canceled?
    ensures state.Passed? <==> !timedOut && !runErr && exitCode == 0 && CleanSummary(sum)
    ensures state == Timeout <==> timedOut
    ensures state == Failed <==> !timedOut && !runErr && sum.tests > 0 && (sum.failed + sum.errors > 0 || exitCode != 0)
  {
    if timedOut then Timeout
    else if runErr then Errored
    else if sum.tests == 0 then Errored
    else if sum.failed + sum.errors > 0 then Failed
    else if exitCode != 0 then Failed
    else Passed
  }

  /** Tests ran, and none failed. */
  predicate CleanSummary(sum: Summary) {
    sum.tests > 0 && sum.failed + sum.errors == 0
  }

  /** If the run passed, its results say so. */
  predicate Clean(r: Run) {
    r.state.Passed? ==> CleanSummary(r.summary)
  }

  lemma {:induction false} TallyBalances(suites: seq<SuiteSpec>, latest: map<string, Run>)
    requires forall name <- latest :: Balanced(latest[name].summary)
    ensures var t := TallyUp(suites, latest).t; t.tests == t.passed + t.failed + t.skipped
  {
    if suites != [] {
      TallyBalances(suites[..|suites| - 1], latest);
    }
  }

  lemma {:induction false} CleanTally(suites: seq<SuiteSpec>, latest: map<string, Run>)
    requires Every(suites, latest, {Passed}) && forall name <- latest :: Clean(latest[name])
    ensures var t := TallyUp(suites, latest).t; t.failed == 0 && t.tests >= |suites|
  {
    if suites != [] {
      var rest, su := suites[..|suites| - 1], suites[|suites| - 1];
      assert suites == rest + [su];
      assert su in suites;
      CleanTally(rest, latest);
    }
  }

  /** With summaries parsed from reports, the regression's test counts balance;
      and with verdicts the runner drew, a passed one has no failure and at
      least one test per suite. */
  lemma TotalsAddUp(reg: Regression, runs: seq<Run>, now: int)
    requires reg.suites != [] && forall r <- runs :: Balanced(r.summary) && Clean(r)
    ensures var h := RolledUp(reg, runs, now);
      && h.totals.tests == h.totals.passed + h.totals.failed + h.totals.skipped
      && (h.state == RegPassed ==> h.totals.failed == 0 && h.totals.tests >= h.totals.suites)
  {
    var latest := Latest(runs);
    LatestIsNewest(runs);
    TallyBalances(reg.suites, latest);
    VerdictMeans(reg, runs, now);
    if RolledUp(reg, runs, now).state == RegPassed {
      CleanTally(reg.suites, latest);
    }
  }
}
