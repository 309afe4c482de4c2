/** How many attempts a suite gets: as many as its retries allow, and that many
    when they all fail. */
module Retries {
  import opened Wrappers
  import opened Model
  import opened Lifecycle
  import opened Attempts

  /** The run's suite asks for retries, or the configured number counts: there
      is one attempt more than that, and one if that is not positive. */
  predicate Allowed(cfg: Config, r: Run) {
    match r.spec.retries
    case Some(k) => r.maxAttempts == if k >= 0 then k + 1 else 1
    case None => r.maxAttempts == if cfg.defaultRetries > 0 then cfg.defaultRetries + 1 else 1
  }

  ghost predicate AllAllowed(cfg: Config, s: StoreState) {
    forall id <- s.runs :: Allowed(cfg, s.runs[id])
  }

  lemma NewIsAllowed(cfg: Config, reg: Regression, su: SuiteSpec, attempt: int, id: string, token: string, now: int)
    ensures Allowed(cfg, NewRun(cfg, reg, su, attempt, id, token, now))
    ensures NewRun(cfg, reg, su, attempt, id, token, now).spec == su
  {
  }

  lemma RetryIsAllowed(cfg: Config, s: StoreState, e: Event)
    requires AboutARun(e) && Enabled(cfg, s, e) && e.Finish? && e.retry.Some? && Allowed(cfg, s.runs[e.id])
    ensures Allowed(cfg, e.retry.value)
  {
  }

  lemma SubmitKeepsAllowed(cfg: Config, s: StoreState, e: Event)
    requires Indexed(s) && Enabled(cfg, s, e) && e.Submit? && AllAllowed(cfg, s)
    ensures AllAllowed(cfg, Apply(s, e))
  {
    hide RecordsOk;
    hide RunsOk;
    hide TokensOk;
    hide ExtendsTokens;
    hide ExtendsRecords;
    hide Allowed;
    SubmitKeepsIndexed(cfg, s, e.reg, e.firsts);
    var s' := Apply(s, e);
    forall id <- s'.runs | id !in s.runs ensures Allowed(cfg, s'.runs[id]) {
      var r :| r in e.firsts && r.id == id;
      var i :| 0 <= i < |e.firsts| && e.firsts[i] == r;
      NewIsAllowed(cfg, e.reg, e.reg.suites[i], 1, r.id, r.token, r.queuedAt);
    }
  }

  lemma EventKeepsAllowed(cfg: Config, s: StoreState, e: Event)
    requires Indexed(s) && Enabled(cfg, s, e) && AllAllowed(cfg, s)
    ensures AllAllowed(cfg, Apply(s, e))
  {
    hide RecordsOk;
    hide RunsOk;
    hide TokensOk;
    hide Touched;
    if e.Submit? {
      SubmitKeepsAllowed(cfg, s, e);
    } else if AboutARun(e) {
      TouchedKeepsIdentity(s.runs[e.id], e);
      if e.Finish? && e.retry.Some? {
        RetryIsAllowed(cfg, s, e);
      }
    } else if e.Restart? {
      assert forall id <- s.runs :: SameIdentity(Apply(s, e).runs[id], s.runs[id]);
    }
  }

  lemma {:induction false} HistoryKeepsAllowed(cfg: Config, s: StoreState, es: seq<Event>)
    requires Indexed(s) && Legal(cfg, s, es) && AllAllowed(cfg, s)
    ensures AllAllowed(cfg, ApplyAll(cfg, s, es))
    decreases |es|
  {
    hide AllAllowed;
    hide Indexed;
    if es != [] {
      EventKeepsIndexed(cfg, s, es[0]);
      EventKeepsAllowed(cfg, s, es[0]);
      HistoryKeepsAllowed(cfg, Apply(s, es[0]), es[1..]);
    }
  }

  // --------------------------------------------------------------- counting

  ghost function UpTo(m: Marks, q: Mark, n: int): set<string> {
    set x | x in m && SameChain(m[x], q) && m[x].attempt <= n
  }

  /** With attempts 1 to n there, and none twice, there are n of them. */
  lemma {:induction false} AttemptsCounted(m: Marks, q: Mark, n: nat)
    requires InRange(m) && Linked(m) && forall k | 1 <= k <= n :: Has(m, q, k)
    ensures |UpTo(m, q, n)| == n
  {
    if n == 0 {
      assert UpTo(m, q, 0) == {};
    } else {
      AttemptsCounted(m, q, n - 1);
      assert Has(m, q, n);
      var w :| w in m && SameChain(m[w], q) && m[w].attempt == n;
      forall x | x in m && SameChain(m[x], q) && m[x].attempt == n ensures x == w {
        assert Ranked(m, x, w);
      }
      assert UpTo(m, q, n) == UpTo(m, q, n - 1) + {w};
    }
  }

  /** When every attempt fails, the last one allowed is made. */
  lemma {:induction false} LastIsReached(m: Marks, id: string)
    requires InRange(m) && Linked(m) && Retried(m) && id in m
    requires forall x <- m | SameChain(m[x], m[id]) :: m[x].state.Retryable()
    ensures Has(m, m[id], m[id].max)
    decreases m[id].max - m[id].attempt
  {
    assert SameChain(m[id], m[id]);
    if m[id].attempt < m[id].max {
      assert HasNext(m, id);
      var n :| n in m && SameChain(m[n], m[id]) && m[n].attempt == m[id].attempt + 1;
      assert Ranked(m, id, n);
      LastIsReached(m, n);
      var w :| w in m && SameChain(m[w], m[n]) && m[w].attempt == m[n].max;
      assert SameChain(m[w], m[id]);
    }
  }

  /** The runs of one suite of a regression. */
  ghost function AttemptsOf(s: StoreState, regId: string, suite: string): set<string> {
    set x | x in s.runs && s.runs[x].regressionId == regId && s.runs[x].suite == suite
  }

  lemma AllAttemptsMade(m: Marks, id: string)
    requires Chained(m) && id in m && forall x <- m | SameChain(m[x], m[id]) :: m[x].state.Retryable()
    ensures |UpTo(m, m[id], m[id].max)| == m[id].max
    ensures forall x <- m | SameChain(m[x], m[id]) :: x in UpTo(m, m[id], m[id].max)
  {
    LastIsReached(m, id);
    var w :| w in m && SameChain(m[w], m[id]) && m[w].attempt == m[id].max;
    forall k | 1 <= k <= m[id].max ensures Has(m, m[id], k) {
      EarlierAttempts(m, w, k);
      var v :| v in m && SameChain(m[v], m[w]) && m[v].attempt == k;
      assert SameChain(m[v], m[id]);
    }
    AttemptsCounted(m, m[id], m[id].max);
    forall x <- m | SameChain(m[x], m[id]) ensures m[x].attempt <= m[id].max {
      assert x != id ==> Ranked(m, x, id);
    }
  }

  /** In every reachable state, a suite with k retries whose attempts have all
      failed, broken or timed out has had k + 1 of them. */
  lemma AllFailedMeansAllTried(cfg: Config, es: seq<Event>, id: string, k: nat)
    requires Legal(cfg, EMPTY_STORE, es) && id in ApplyAll(cfg, EMPTY_STORE, es).runs
    requires ApplyAll(cfg, EMPTY_STORE, es).runs[id].spec.retries == Some(k)
    requires var s := ApplyAll(cfg, EMPTY_STORE, es);
      forall x <- AttemptsOf(s, s.runs[id].regressionId, s.runs[id].suite) :: s.runs[x].state in {Failed, Errored, Timeout}
    ensures var s := ApplyAll(cfg, EMPTY_STORE, es); |AttemptsOf(s, s.runs[id].regressionId, s.runs[id].suite)| == k + 1
  {
    hide Chained;
    var s := ApplyAll(cfg, EMPTY_STORE, es);
    EmptyIsChained();
    HistoryKeepsChains(cfg, EMPTY_STORE, es);
    HistoryKeepsAllowed(cfg, EMPTY_STORE, es);
    var m := MarksOf(s);
    AllAttemptsMade(m, id);
    assert UpTo(m, m[id], m[id].max) == AttemptsOf(s, s.runs[id].regressionId, s.runs[id].suite);
  }

  lemma EmptyIsChained()
    ensures Indexed(EMPTY_STORE) && Chained(MarksOf(EMPTY_STORE))
  {
  }
}
