/** Runs, suites and regressions, as the master stores them. Times are integers. */
module Model {
  import opened Wrappers
  import Catalogs

  datatype RunState = Queued | Dispatched | Running | Passed | Failed | Errored | Timeout | Canceled
  {
    predicate Terminal() {
      Passed? || Failed? || Errored? || Timeout? || Canceled?
    }

    /** A failed attempt that is worth another slot. */
    predicate Retryable() {
      Failed? || Errored? || Timeout?
    }

    /** The run holds a slot. */
    predicate InFlight() {
      Dispatched? || Running?
    }
  }

  datatype RegressionState = RegPending | RegRunning | RegPassed | RegFailed | RegErrored | RegCanceled

  // A timeout of 0 means the configured default; retries None likewise; a
  // runtime left unset, the pool's.
  datatype SuiteSpec = SuiteSpec(
    name: string,
    pool: string,
    command: seq<string>,
    requires_: map<string, string>,
    timeout: nat,
    retries: Option<int>,
    runtime: Catalogs.Runtime)
  {
    function MaxAttempts(): (n: nat)
      ensures 1 <= n
    {
      match retries
      case None => 1
      case Some(k) => if k < 0 then 1 else k + 1
    }
  }

  datatype Summary = Summary(tests: nat, passed: nat, failed: nat, errors: nat, skipped: nat)

  datatype Run = Run(
    id: string,
    regressionId: string,
    suite: string,
    attempt: int,
    maxAttempts: int,
    pool: string,
    state: RunState,
    priority: int,
    user: string,
    queuedAt: int,
    dispatchedAt: Option<int>,
    startedAt: Option<int>,
    finishedAt: Option<int>,
    nodeId: string,
    nodeName: string,
    summary: Summary,
    token: string,
    spec: SuiteSpec)

  // A worker as the backend reports it.
  datatype NodeInfo = NodeInfo(id: string, name: string, slots: nat, ready: bool, meta: map<string, string>)

  datatype Totals = Totals(
    suites: nat,
    suitesPassed: nat,
    suitesFailed: nat,
    suitesErrored: nat,
    suitesRunning: nat,
    suitesQueued: nat,
    tests: nat,
    passed: nat,
    failed: nat,
    skipped: nat,
    flaky: nat)

  datatype Regression = Regression(
    id: string,
    user: string,
    priority: int,
    state: RegressionState,
    submittedAt: int,
    startedAt: Option<int>,
    finishedAt: Option<int>,
    suites: seq<SuiteSpec>,
    totals: Totals)

  // A regression and its runs, by id, in the order they were created.
  datatype Record = Record(reg: Regression, runs: seq<string>)

  // The store's indexes. A run's id stands for the pointer to it.
  datatype StoreState = StoreState(
    regs: map<string, Record>,
    runs: map<string, Run>,
    tokens: map<string, string>)

  const EMPTY_STORE := StoreState(map[], map[], map[])

  const NO_RESULTS := Summary(0, 0, 0, 0, 0)
}
