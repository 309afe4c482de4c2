/** Attempt chains: the attempts of each suite, in every reachable state. */
module Attempts {
  import opened Model
  import opened Lifecycle

  // What matters of a run to its chain.
  datatype Mark = Mark(regId: string, suite: string, attempt: int, max: int, state: RunState)

  type Marks = map<string, Mark>

  function MarkOf(r: Run): Mark {
    Mark(r.regressionId, r.suite, r.attempt, r.maxAttempts, r.state)
  }

  function MarksOf(s: StoreState): Marks {
    map id | id in s.runs :: MarkOf(s.runs[id])
  }

  predicate SameChain(a: Mark, b: Mark) {
    a.regId == b.regId && a.suite == b.suite
  }

  ghost predicate Has(m: Marks, q: Mark, k: int) {
    exists id <- m :: SameChain(m[id], q) && m[id].attempt == k
  }

  ghost predicate HasPrevious(m: Marks, id: string)
    requires id in m
  {
    Has(m, m[id], m[id].attempt - 1)
  }

  ghost predicate HasNext(m: Marks, id: string)
    requires id in m
  {
    Has(m, m[id], m[id].attempt + 1)
  }

  ghost predicate InRange(m: Marks) {
    forall id <- m :: 1 <= m[id].attempt <= m[id].max
  }

  /** Every attempt but the first has a predecessor. */
  ghost predicate Preceded(m: Marks) {
    forall id {:trigger HasPrevious(m, id)} | id in m :: m[id].attempt > 1 ==> HasPrevious(m, id)
  }

  /** Two runs of one suite are different attempts, out of the same number, and
      only a failed one has a successor. */
  ghost predicate Ranked(m: Marks, a: string, b: string)
    requires a in m && b in m
  {
    a != b && SameChain(m[a], m[b]) ==>
      && m[a].max == m[b].max
      && m[a].attempt != m[b].attempt
      && (m[a].attempt < m[b].attempt ==> m[a].state.Retryable())
  }

  ghost predicate Linked(m: Marks) {
    forall a, b {:trigger Ranked(m, a, b)} | a in m && b in m :: Ranked(m, a, b)
  }

  /** A failed attempt that could be retried was. */
  ghost predicate Retried(m: Marks) {
    forall id {:trigger HasNext(m, id)} | id in m :: m[id].state.Retryable() && m[id].attempt < m[id].max ==> HasNext(m, id)
  }

  ghost predicate Chained(m: Marks) {
    InRange(m) && Preceded(m) && Linked(m) && Retried(m)
  }

  // ------------------------------------------------------------------- moves

  function Moved(m: Marks, id: string, state: RunState): Marks
    requires id in m
  {
    m[id := m[id].(state := state)]
  }

  lemma MovedHas(m: Marks, id: string, state: RunState, q: Mark, k: int)
    requires id in m && Has(m, q, k)
    ensures Has(Moved(m, id, state), q, k)
  {
    var w :| w in m && SameChain(m[w], q) && m[w].attempt == k;
    var m' := Moved(m, id, state);
    assert SameChain(m'[w], q) && m'[w].attempt == k;
  }

  /** Moving an unfinished run on keeps the chains, but it may owe a retry. */
  lemma MovedKeepsLinks(m: Marks, id: string, state: RunState)
    requires InRange(m) && Preceded(m) && Linked(m) && id in m && !m[id].state.Terminal()
    ensures InRange(Moved(m, id, state)) && Preceded(Moved(m, id, state)) && Linked(Moved(m, id, state))
  {
    var m' := Moved(m, id, state);
    forall x | x in m && m[x].attempt > 1 ensures HasPrevious(m', x) {
      assert HasPrevious(m, x);
      MovedHas(m, id, state, m[x], m[x].attempt - 1);
    }
    forall a, b | a in m && b in m ensures Ranked(m', a, b) {
      assert Ranked(m, a, b) && Ranked(m, b, a);
    }
  }

  lemma MovedOwesNothingElse(m: Marks, id: string, state: RunState, x: string)
    requires Retried(m) && id in m && x in m && x != id && m[x].state.Retryable() && m[x].attempt < m[x].max
    ensures Has(Moved(m, id, state), m[x], m[x].attempt + 1)
  {
    assert HasNext(m, x);
    MovedHas(m, id, state, m[x], m[x].attempt + 1);
  }

  lemma MovedKeepsChained(m: Marks, id: string, state: RunState)
    requires Chained(m) && id in m && !m[id].state.Terminal()
    requires !state.Retryable() || m[id].attempt == m[id].max
    ensures Chained(Moved(m, id, state))
  {
    var m' := Moved(m, id, state);
    MovedKeepsLinks(m, id, state);
    forall x | x in m' && m'[x].state.Retryable() && m'[x].attempt < m'[x].max ensures HasNext(m', x) {
      MovedOwesNothingElse(m, id, state, x);
    }
  }

  /** An unfinished run is the newest of its chain. */
  lemma UnfinishedIsNewest(m: Marks, id: string, b: string)
    requires Linked(m) && id in m && b in m && SameChain(m[id], m[b]) && !m[id].state.Terminal()
    ensures m[b].attempt <= m[id].attempt
  {
    assert Ranked(m, id, b);
  }

  // ---------------------------------------------------------------- retries

  lemma AddedHas(m: Marks, id: string, mark: Mark, q: Mark, k: int)
    requires id !in m
    ensures Has(m, q, k) ==> Has(m[id := mark], q, k)
    ensures SameChain(mark, q) && mark.attempt == k ==> Has(m[id := mark], q, k)
  {
    var m' := m[id := mark];
    if Has(m, q, k) {
      var w :| w in m && SameChain(m[w], q) && m[w].attempt == k;
      assert SameChain(m'[w], q) && m'[w].attempt == k;
    }
    assert m'[id] == mark;
  }

  ghost predicate Newest(m: Marks, p: string) {
    p in m && forall b <- m | SameChain(m[b], m[p]) :: m[b].attempt <= m[p].attempt
  }

  function NextAttempt(p: Mark): Mark {
    p.(attempt := p.attempt + 1, state := Queued)
  }

  /** Queueing the attempt after a failed newest one keeps the links. */
  lemma AddedKeepsLinks(m: Marks, p: string, id: string)
    requires InRange(m) && Preceded(m) && Linked(m) && Newest(m, p) && id !in m
    requires m[p].state.Retryable() && m[p].attempt < m[p].max
    ensures var m' := m[id := NextAttempt(m[p])]; InRange(m') && Preceded(m') && Linked(m')
  {
    var mark := NextAttempt(m[p]);
    var m' := m[id := mark];
    forall x | x in m' && m'[x].attempt > 1 ensures HasPrevious(m', x) {
      if x == id {
        assert SameChain(m'[p], mark);
      } else {
        assert HasPrevious(m, x);
        AddedHas(m, id, mark, m[x], m[x].attempt - 1);
      }
    }
    forall a, b | a in m' && b in m' ensures Ranked(m', a, b) {
      if a != id && b != id {
        assert Ranked(m, a, b);
      } else if b != id && SameChain(m[b], m[p]) {
        assert Ranked(m, p, b);
      } else if a != id && SameChain(m[a], m[p]) {
        assert Ranked(m, a, p);
      }
    }
  }

  lemma VerdictWithRetryKeepsChained(m: Marks, p: string, state: RunState, id: string)
    requires Chained(m) && p in m && !m[p].state.Terminal() && id !in m
    requires state.Retryable() && m[p].attempt < m[p].max
    ensures Chained(Moved(m, p, state)[id := NextAttempt(m[p])])
  {
    var n, mark := Moved(m, p, state), NextAttempt(m[p]);
    MovedKeepsLinks(m, p, state);
    forall b <- n | SameChain(n[b], n[p]) ensures n[b].attempt <= n[p].attempt {
      UnfinishedIsNewest(m, p, b);
    }
    AddedKeepsLinks(n, p, id);
    var m' := n[id := mark];
    forall x | x in m' && m'[x].state.Retryable() && m'[x].attempt < m'[x].max ensures HasNext(m', x) {
      if x != p {
        MovedOwesNothingElse(m, p, state, x);
      }
      AddedHas(n, id, mark, n[x], n[x].attempt + 1);
    }
  }

  // --------------------------------------------------------- first attempts

  /** Fresh first attempts of distinct suites of a new regression. */
  ghost predicate Firsts(m: Marks, m': Marks, g: string) {
    && m.Keys <= m'.Keys
    && (forall id <- m :: m'[id] == m[id] && m[id].regId != g)
    && (forall id <- m' | id !in m :: m'[id].regId == g && m'[id].attempt == 1 && m'[id].max >= 1 && m'[id].state.Queued?)
    && (forall a <- m', b <- m' | a !in m && b !in m && a != b :: m'[a].suite != m'[b].suite)
  }

  lemma LaterHas(m: Marks, m': Marks, q: Mark, k: int)
    requires m.Keys <= m'.Keys && forall id <- m :: SameChain(m'[id], m[id]) && m'[id].attempt == m[id].attempt
    requires Has(m, q, k)
    ensures Has(m', q, k)
  {
    var w :| w in m && SameChain(m[w], q) && m[w].attempt == k;
    assert SameChain(m'[w], q) && m'[w].attempt == k;
  }

  lemma FirstsKeepChained(m: Marks, m': Marks, g: string)
    requires Chained(m) && Firsts(m, m', g)
    ensures Chained(m')
  {
    forall x | x in m' && m'[x].attempt > 1 ensures HasPrevious(m', x) {
      assert HasPrevious(m, x);
      LaterHas(m, m', m[x], m[x].attempt - 1);
    }
    forall x | x in m' && m'[x].state.Retryable() && m'[x].attempt < m'[x].max ensures HasNext(m', x) {
      assert HasNext(m, x);
      LaterHas(m, m', m[x], m[x].attempt + 1);
    }
    forall a, b | a in m' && b in m' ensures Ranked(m', a, b) {
      assert a in m && b in m ==> Ranked(m, a, b);
    }
  }

  // ---------------------------------------------------------------- restart

  function RequeuedMark(k: Mark): Mark {
    if k.state.InFlight() then k.(state := Queued) else k
  }

  lemma RestartKeepsChained(m: Marks, m': Marks)
    requires Chained(m) && m'.Keys == m.Keys && forall id <- m :: m'[id] == RequeuedMark(m[id])
    ensures Chained(m')
  {
    forall x | x in m' && m'[x].attempt > 1 ensures HasPrevious(m', x) {
      assert HasPrevious(m, x);
      LaterHas(m, m', m'[x], m[x].attempt - 1);
    }
    forall x | x in m' && m'[x].state.Retryable() && m'[x].attempt < m'[x].max ensures HasNext(m', x) {
      assert HasNext(m, x);
      LaterHas(m, m', m'[x], m[x].attempt + 1);
    }
    forall a, b | a in m' && b in m' ensures Ranked(m', a, b) {
      assert Ranked(m, a, b);
    }
  }

  // ---------------------------------------------------------- every history

  lemma FirstMark(cfg: Config, s: StoreState, reg: Regression, firsts: seq<Run>, i: nat)
    requires FirstAttempts(cfg, s, reg, firsts) && i < |firsts|
    ensures var k := MarkOf(firsts[i]);
      k.regId == reg.id && k.suite == reg.suites[i].name && k.attempt == 1 && k.max >= 1 && k.state.Queued?
  {
  }

  /** Which first attempt a new mark is. */
  lemma NewMark(cfg: Config, s: StoreState, s': StoreState, reg: Regression, firsts: seq<Run>, id: string) returns (i: nat)
    requires FirstAttempts(cfg, s, reg, firsts) && Extends(AddRegression(s, reg), s', firsts)
    requires id in s'.runs && id !in s.runs
    ensures i < |firsts| && firsts[i].id == id && MarksOf(s')[id] == MarkOf(firsts[i])
  {
    assert id in Ids(firsts);
    i :| 0 <= i < |firsts| && firsts[i].id == id;
    assert firsts[i] in firsts;
  }

  lemma SubmitMarks(cfg: Config, s: StoreState, s': StoreState, reg: Regression, firsts: seq<Run>)
    requires reg.id !in s.regs && DistinctSuites(reg.suites) && RunsOk(s)
    requires FirstAttempts(cfg, s, reg, firsts) && Extends(AddRegression(s, reg), s', firsts)
    ensures Firsts(MarksOf(s), MarksOf(s'), reg.id)
  {
    var m, m' := MarksOf(s), MarksOf(s');
    forall id | id in m' && id !in m
      ensures m'[id].regId == reg.id && m'[id].attempt == 1 && m'[id].max >= 1 && m'[id].state.Queued?
    {
      var i := NewMark(cfg, s, s', reg, firsts, id);
      FirstMark(cfg, s, reg, firsts, i);
    }
    forall a, b | a in m' && b in m' && a !in m && b !in m && a != b ensures m'[a].suite != m'[b].suite {
      NewMarksDiffer(cfg, s, s', reg, firsts, a, b);
    }
  }

  lemma NewMarksDiffer(cfg: Config, s: StoreState, s': StoreState, reg: Regression, firsts: seq<Run>, a: string, b: string)
    requires DistinctSuites(reg.suites)
    requires FirstAttempts(cfg, s, reg, firsts) && Extends(AddRegression(s, reg), s', firsts)
    requires a in s'.runs && b in s'.runs && a !in s.runs && b !in s.runs && a != b
    ensures MarksOf(s')[a].suite != MarksOf(s')[b].suite
  {
    var i := NewMark(cfg, s, s', reg, firsts, a);
    var j := NewMark(cfg, s, s', reg, firsts, b);
    FirstMark(cfg, s, reg, firsts, i);
    FirstMark(cfg, s, reg, firsts, j);
    assert reg.suites[if i < j then i else j].name != reg.suites[if i < j then j else i].name;
  }

  lemma TouchedMarks(s: StoreState, e: Event)
    requires AboutARun(e) && e.id in s.runs && s.runs[e.id].id == e.id
    ensures MarksOf(PutRun(s, Touched(s.runs[e.id], e))) == Moved(MarksOf(s), e.id, Touched(s.runs[e.id], e).state)
  {
  }

  lemma FinishMarks(cfg: Config, s: StoreState, e: Event)
    requires RecordsOk(s) && RunsOk(s) && e.Finish? && e.retry.Some? && e.id in s.runs && IsRetryOf(cfg, s, s.runs[e.id], e.retry.value)
    ensures MarksOf(Apply(s, e)) == Moved(MarksOf(s), e.id, e.state)[e.retry.value.id := NextAttempt(MarksOf(s)[e.id])]
  {
    TouchedMarks(s, e);
    assert MarkOf(e.retry.value) == NextAttempt(MarkOf(s.runs[e.id]));
    AddedMarks(PutRun(s, Touched(s.runs[e.id], e)), e.retry.value);
  }

  lemma AddedMarks(s: StoreState, r: Run)
    requires r.regressionId in s.regs
    ensures MarksOf(AddRun(s, r)) == MarksOf(s)[r.id := MarkOf(r)]
  {
  }

  /** An event about a run leaves its state alone or moves it on from an
      unfinished one, queueing a retry exactly when one is owed. */
  lemma RunEventMoves(cfg: Config, s: StoreState, e: Event)
    requires AboutARun(e) && Enabled(cfg, s, e)
    ensures e.id in s.runs
    ensures var r, r' := s.runs[e.id], Touched(s.runs[e.id], e);
      && (r'.state == r.state || !r.state.Terminal())
      && (e.Finish? && e.retry.Some? ==> !r.state.Terminal() && e.state.Retryable() && r.attempt < r.maxAttempts)
      && (!(e.Finish? && e.retry.Some?) && r'.state != r.state ==> !r'.state.Retryable() || r.attempt >= r.maxAttempts)
  {
  }

  lemma RunEventKeepsChained(s: StoreState, e: Event)
    requires RunsOk(s) && Chained(MarksOf(s)) && AboutARun(e) && e.id in s.runs
    requires var r, r' := s.runs[e.id], Touched(s.runs[e.id], e);
      r'.state == r.state || (!r.state.Terminal() && (!r'.state.Retryable() || r.attempt >= r.maxAttempts))
    ensures Chained(MarksOf(PutRun(s, Touched(s.runs[e.id], e))))
  {
    var m, state := MarksOf(s), Touched(s.runs[e.id], e).state;
    TouchedMarks(s, e);
    if state == m[e.id].state {
      assert Moved(m, e.id, state) == m;
    } else {
      assert m[e.id].attempt <= m[e.id].max;
      MovedKeepsChained(m, e.id, state);
    }
  }

  lemma EventKeepsChained(cfg: Config, s: StoreState, e: Event)
    requires Indexed(s) && Chained(MarksOf(s)) && Enabled(cfg, s, e)
    ensures Chained(MarksOf(Apply(s, e)))
  {
    hide RecordsOk;
    hide RunsOk;
    hide TokensOk;
    hide Chained;
    hide MarksOf;
    if e.Submit? {
      SubmitKeepsChained(cfg, s, e);
    } else if e.Finish? && e.retry.Some? {
      FinishKeepsChained(cfg, s, e);
    } else if AboutARun(e) {
      RunEventMoves(cfg, s, e);
      RunEventKeepsChained(s, e);
    } else {
      HeaderOrRestartKeepsChained(s, e);
    }
  }

  lemma HeaderOrRestartKeepsChained(s: StoreState, e: Event)
    requires Chained(MarksOf(s)) && (e.Restart? || (e.Rollup? && e.regId in s.regs))
    ensures Chained(MarksOf(Apply(s, e)))
  {
    if e.Rollup? {
      assert MarksOf(Apply(s, e)) == MarksOf(s);
    } else {
      RestartKeepsChained(MarksOf(s), MarksOf(Apply(s, e)));
    }
  }

  lemma FinishKeepsChained(cfg: Config, s: StoreState, e: Event)
    requires Indexed(s) && Chained(MarksOf(s)) && Enabled(cfg, s, e) && e.Finish? && e.retry.Some?
    ensures Chained(MarksOf(Apply(s, e)))
  {
    FinishMarks(cfg, s, e);
    VerdictWithRetryKeepsChained(MarksOf(s), e.id, e.state, e.retry.value.id);
  }

  lemma SubmitKeepsChained(cfg: Config, s: StoreState, e: Event)
    requires Indexed(s) && Chained(MarksOf(s)) && Enabled(cfg, s, e) && e.Submit?
    ensures Chained(MarksOf(Apply(s, e)))
  {
    SubmitKeepsIndexed(cfg, s, e.reg, e.firsts);
    SubmitMarks(cfg, s, Apply(s, e), e.reg, e.firsts);
    FirstsKeepChained(MarksOf(s), MarksOf(Apply(s, e)), e.reg.id);
  }

  /** Every history, restarts included, leaves the indexes exact and the chains whole. */
  lemma {:induction false} HistoryKeepsChains(cfg: Config, s: StoreState, es: seq<Event>)
    requires Legal(cfg, s, es) && Indexed(s) && Chained(MarksOf(s))
    ensures Indexed(ApplyAll(cfg, s, es)) && Chained(MarksOf(ApplyAll(cfg, s, es)))
    decreases |es|
  {
    if es != [] {
      EventKeepsIndexed(cfg, s, es[0]);
      EventKeepsChained(cfg, s, es[0]);
      HistoryKeepsChains(cfg, Apply(s, es[0]), es[1..]);
    }
  }

  // ----------------------------------------------------- what it comes down to

  /** The attempts of a suite are exactly 1..k, with k at most MaxAttempts,
      which never varies along the chain; all but the last failed; a suite whose
      last attempt failed has used them all; and nothing follows a canceled one. */
  ghost predicate WholeChain(m: Marks, id: string)
    requires id in m
  {
    && 1 <= m[id].attempt <= m[id].max
    && (forall k | 1 <= k <= m[id].attempt :: Has(m, m[id], k))
    && (forall b <- m | b != id && SameChain(m[b], m[id]) ::
          && m[b].attempt != m[id].attempt
          && m[b].max == m[id].max
          && (m[b].attempt < m[id].attempt ==> m[b].state in {Failed, Errored, Timeout}))
    && (m[id].state in {Failed, Errored, Timeout} && !Has(m, m[id], m[id].attempt + 1) ==> m[id].attempt == m[id].max)
    && (m[id].state.Canceled? || m[id].state.Passed? ==> forall k | k > m[id].attempt :: !Has(m, m[id], k))
  }

  /** So it is in every state reachable from an empty store. */
  lemma ReachableAttempts(cfg: Config, es: seq<Event>)
    requires Legal(cfg, EMPTY_STORE, es)
    ensures forall id <- MarksOf(ApplyAll(cfg, EMPTY_STORE, es)) :: WholeChain(MarksOf(ApplyAll(cfg, EMPTY_STORE, es)), id)
  {
    assert Indexed(EMPTY_STORE) && Chained(MarksOf(EMPTY_STORE));
    HistoryKeepsChains(cfg, EMPTY_STORE, es);
    var m := MarksOf(ApplyAll(cfg, EMPTY_STORE, es));
    forall id <- m ensures WholeChain(m, id) {
      ChainIsWhole(m, id);
    }
  }

  lemma ChainIsWhole(m: Marks, id: string)
    requires Chained(m) && id in m
    ensures WholeChain(m, id)
  {
    forall k | 1 <= k <= m[id].attempt ensures Has(m, m[id], k) {
      EarlierAttempts(m, id, k);
    }
    assert m[id].state.Retryable() && m[id].attempt < m[id].max ==> HasNext(m, id);
    forall b <- m ensures Ranked(m, id, b) && Ranked(m, b, id) {}
  }

  lemma {:induction false} EarlierAttempts(m: Marks, id: string, k: int)
    requires InRange(m) && Preceded(m) && id in m && 1 <= k <= m[id].attempt
    ensures Has(m, m[id], k)
    decreases m[id].attempt
  {
    if k < m[id].attempt {
      assert HasPrevious(m, id);
      var p :| p in m && SameChain(m[p], m[id]) && m[p].attempt == m[id].attempt - 1;
      EarlierAttempts(m, p, k);
      var q :| q in m && SameChain(m[q], m[p]) && m[q].attempt == k;
      assert SameChain(m[q], m[id]);
    } else {
      assert SameChain(m[id], m[id]);
    }
  }

  /** A terminal state never changes, whatever happens later. */
  lemma {:induction false} TerminalIsFinal(cfg: Config, s: StoreState, es: seq<Event>, id: string)
    requires Legal(cfg, s, es) && Indexed(s) && id in s.runs && s.runs[id].state in {Passed, Failed, Errored, Timeout, Canceled}
    ensures id in ApplyAll(cfg, s, es).runs && ApplyAll(cfg, s, es).runs[id].state == s.runs[id].state
    decreases |es|
  {
    if es != [] {
      EventKeepsIndexed(cfg, s, es[0]);
      TerminalStays(cfg, s, es[0], id);
      TerminalIsFinal(cfg, Apply(s, es[0]), es[1..], id);
    }
  }

  lemma TerminalStays(cfg: Config, s: StoreState, e: Event, id: string)
    requires Enabled(cfg, s, e) && Indexed(s) && id in s.runs && s.runs[id].state.Terminal()
    ensures id in Apply(s, e).runs && Apply(s, e).runs[id].state == s.runs[id].state
  {
    hide RecordsOk;
    hide TokensOk;
    hide RunsOk;
    if e.Submit? {
      SubmitLeavesRuns(cfg, s, e, id);
    } else if AboutARun(e) {
      RunEventMoves(cfg, s, e);
      TerminalStaysAt(s, e, id);
    }
  }

  lemma SubmitLeavesRuns(cfg: Config, s: StoreState, e: Event, id: string)
    requires Enabled(cfg, s, e) && Indexed(s) && id in s.runs && e.Submit?
    ensures id in Apply(s, e).runs && Apply(s, e).runs[id] == s.runs[id]
  {
    SubmitKeepsIndexed(cfg, s, e.reg, e.firsts);
  }

  lemma TerminalStaysAt(s: StoreState, e: Event, id: string)
    requires RunsOk(s) && AboutARun(e) && e.id in s.runs && id in s.runs && s.runs[id].state.Terminal()
    requires Touched(s.runs[e.id], e).state == s.runs[e.id].state || !s.runs[e.id].state.Terminal()
    requires e.Finish? && e.retry.Some? ==> e.retry.value.id !in s.runs
    ensures id in Apply(s, e).runs && Apply(s, e).runs[id].state == s.runs[id].state
  {
    TouchedKeepsIdentity(s.runs[e.id], e);
  }
}
