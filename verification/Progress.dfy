/** Runs move forward: between submissions and restarts only finitely many
    state changes can happen, and an in-flight run always has a start to time
    it from. */
module Progress {
  import opened Counting
  import opened Model
  import opened Lifecycle
  import opened Attempts

  // A suite of a regression.
  datatype Chain = Chain(regId: string, suite: string)

  function ChainOf(k: Mark): Chain {
    Chain(k.regId, k.suite)
  }

  function Rank(state: RunState): nat {
    match state
    case Queued => 3
    case Dispatched => 2
    case Running => 1
    case _ => 0
  }

  /** The unfinished attempt of a suite; there is at most one. */
  ghost predicate Live(m: Marks, c: Chain, id: string) {
    id in m && ChainOf(m[id]) == c && !m[id].state.Terminal()
  }

  function WeightOf(k: Mark): int {
    4 * (k.max - k.attempt) + Rank(k.state)
  }

  /** How much can still happen to a suite. */
  ghost function Weight(m: Marks, c: Chain): int {
    if exists id :: Live(m, c, id) then
      var id :| Live(m, c, id);
      WeightOf(m[id])
    else 0
  }

  lemma WeightOfLive(m: Marks, c: Chain, id: string)
    requires Linked(m) && Live(m, c, id)
    ensures Weight(m, c) == WeightOf(m[id])
  {
    forall b | Live(m, c, b) ensures b == id {
      assert Ranked(m, id, b) && Ranked(m, b, id);
    }
  }

  lemma SameWeight(m: Marks, m': Marks, c: Chain)
    requires Linked(m) && Linked(m')
    requires forall id :: Live(m, c, id) <==> Live(m', c, id)
    requires forall id | Live(m, c, id) :: id in m' && m'[id] == m[id]
    ensures Weight(m, c) == Weight(m', c)
  {
    if id :| Live(m, c, id) {
      WeightOfLive(m, c, id);
      WeightOfLive(m', c, id);
    }
  }

  ghost function Total(m: Marks, cs: seq<Chain>): int {
    if cs == [] then 0 else Weight(m, cs[0]) + Total(m, cs[1..])
  }

  lemma {:induction false} TotalDrops(m: Marks, m': Marks, cs: seq<Chain>, c: Chain)
    requires Distinct(cs)
    requires forall d | d != c :: Weight(m', d) == Weight(m, d)
    requires Weight(m', c) < Weight(m, c)
    ensures Total(m', cs) <= Total(m, cs)
    ensures c in cs ==> Total(m', cs) < Total(m, cs)
  {
    if cs != [] {
      assert cs == [cs[0]] + cs[1..];
      assert forall i | 0 <= i < |cs[1..]| :: cs[1..][i] == cs[i + 1];
      TotalDrops(m, m', cs[1..], c);
    }
  }

  lemma {:induction false} TotalIsNotNegative(m: Marks, cs: seq<Chain>)
    requires InRange(m) && Linked(m)
    ensures Total(m, cs) >= 0
  {
    if cs != [] {
      TotalIsNotNegative(m, cs[1..]);
      if id :| Live(m, cs[0], id) {
        WeightOfLive(m, cs[0], id);
      }
    }
  }

  lemma MoveDropsTotal(m: Marks, id: string, state: RunState, cs: seq<Chain>)
    requires InRange(m) && Linked(m) && id in m && !m[id].state.Terminal() && Rank(state) < Rank(m[id].state)
    requires Linked(Moved(m, id, state)) && Distinct(cs) && ChainOf(m[id]) in cs
    ensures Total(Moved(m, id, state), cs) < Total(m, cs)
  {
    var m', c := Moved(m, id, state), ChainOf(m[id]);
    WeightOfLive(m, c, id);
    if state.Terminal() {
      forall b ensures !Live(m', c, b) {
        if b in m && b != id { assert Ranked(m, id, b) && Ranked(m, b, id); }
      }
    } else {
      WeightOfLive(m', c, id);
    }
    forall d | d != c ensures Weight(m', d) == Weight(m, d) {
      SameWeight(m, m', d);
    }
    TotalDrops(m, m', cs, c);
  }

  lemma RetryDropsTotal(m: Marks, p: string, state: RunState, id: string, cs: seq<Chain>)
    requires InRange(m) && Linked(m) && p in m && !m[p].state.Terminal() && id !in m
    requires state.Retryable() && m[p].attempt < m[p].max
    requires Linked(Moved(m, p, state)[id := NextAttempt(m[p])]) && Distinct(cs) && ChainOf(m[p]) in cs
    ensures Total(Moved(m, p, state)[id := NextAttempt(m[p])], cs) < Total(m, cs)
  {
    var m', c := Moved(m, p, state)[id := NextAttempt(m[p])], ChainOf(m[p]);
    WeightOfLive(m, c, p);
    WeightOfLive(m', c, id);
    forall d | d != c ensures Weight(m', d) == Weight(m, d) {
      SameWeight(m, m', d);
    }
    TotalDrops(m, m', cs, c);
  }

  /** The event changes some run's state. */
  ghost predicate ChangesState(s: StoreState, e: Event) {
    AboutARun(e) && e.id in s.runs && Touched(s.runs[e.id], e).state != s.runs[e.id].state
  }

  lemma ChangeLowersRank(cfg: Config, s: StoreState, e: Event)
    requires Enabled(cfg, s, e) && ChangesState(s, e)
    ensures !s.runs[e.id].state.Terminal() && Rank(Touched(s.runs[e.id], e).state) < Rank(s.runs[e.id].state)
  {
  }

  /** Every suite the marks mention is among cs. */
  ghost predicate Covers(m: Marks, cs: seq<Chain>) {
    forall id <- m :: ChainOf(m[id]) in cs
  }

  /** Between submissions and restarts, a state change strictly lowers the sum
      over suites of 4 * (MaxAttempts - attempt) + rank, taken over their
      unfinished attempts, and nothing else moves it. */
  lemma StepLowersTotal(cfg: Config, s: StoreState, e: Event, cs: seq<Chain>)
    requires Indexed(s) && Chained(MarksOf(s)) && Enabled(cfg, s, e) && !e.Submit? && !e.Restart?
    requires Distinct(cs) && Covers(MarksOf(s), cs)
    ensures Covers(MarksOf(Apply(s, e)), cs)
    ensures if ChangesState(s, e) then Total(MarksOf(Apply(s, e)), cs) < Total(MarksOf(s), cs)
            else MarksOf(Apply(s, e)) == MarksOf(s)
  {
    EventKeepsChained(cfg, s, e);
    if e.Rollup? {
      assert MarksOf(Apply(s, e)) == MarksOf(s);
    } else {
      RunEventMoves(cfg, s, e);
      RunStepLowersTotal(cfg, s, e, cs);
    }
  }

  lemma RunStepLowersTotal(cfg: Config, s: StoreState, e: Event, cs: seq<Chain>)
    requires Indexed(s) && Chained(MarksOf(s)) && Enabled(cfg, s, e) && AboutARun(e)
    requires Chained(MarksOf(Apply(s, e)))
    requires Distinct(cs) && Covers(MarksOf(s), cs)
    ensures Covers(MarksOf(Apply(s, e)), cs)
    ensures if ChangesState(s, e) then Total(MarksOf(Apply(s, e)), cs) < Total(MarksOf(s), cs)
            else MarksOf(Apply(s, e)) == MarksOf(s)
  {
    if e.Finish? && e.retry.Some? {
      FinishLowersTotal(cfg, s, e, cs);
    } else {
      RunEventMoves(cfg, s, e);
      if ChangesState(s, e) {
        ChangeLowersRank(cfg, s, e);
      }
      MoveLowersTotal(s, e, cs);
    }
  }

  lemma FinishLowersTotal(cfg: Config, s: StoreState, e: Event, cs: seq<Chain>)
    requires Indexed(s) && Chained(MarksOf(s)) && Enabled(cfg, s, e) && e.Finish? && e.retry.Some?
    requires Linked(MarksOf(Apply(s, e)))
    requires Distinct(cs) && Covers(MarksOf(s), cs)
    ensures Covers(MarksOf(Apply(s, e)), cs)
    ensures ChangesState(s, e) && Total(MarksOf(Apply(s, e)), cs) < Total(MarksOf(s), cs)
  {
    hide RecordsOk;
    hide TokensOk;
    hide InRange;
    hide Preceded;
    hide Linked;
    hide Retried;
    hide Total;
    FinishMarks(cfg, s, e);
    RetryDropsTotal(MarksOf(s), e.id, e.state, e.retry.value.id, cs);
  }

  lemma MoveLowersTotal(s: StoreState, e: Event, cs: seq<Chain>)
    requires RunsOk(s) && InRange(MarksOf(s)) && Linked(MarksOf(s)) && AboutARun(e) && e.id in s.runs
    requires !(e.Finish? && e.retry.Some?) && Linked(MarksOf(Apply(s, e)))
    requires ChangesState(s, e) ==> !s.runs[e.id].state.Terminal() && Rank(Touched(s.runs[e.id], e).state) < Rank(s.runs[e.id].state)
    requires Distinct(cs) && Covers(MarksOf(s), cs)
    ensures Covers(MarksOf(Apply(s, e)), cs)
    ensures if ChangesState(s, e) then Total(MarksOf(Apply(s, e)), cs) < Total(MarksOf(s), cs)
            else MarksOf(Apply(s, e)) == MarksOf(s)
  {
    var m, state := MarksOf(s), Touched(s.runs[e.id], e).state;
    TouchedMarks(s, e);
    if ChangesState(s, e) {
      MoveDropsTotal(m, e.id, state, cs);
    } else {
      assert Moved(m, e.id, state) == m;
    }
  }

  ghost predicate Quiet(es: seq<Event>) {
    forall e <- es :: !e.Submit? && !e.Restart?
  }

  /** How many events of a history change a run's state. */
  ghost function Changes(cfg: Config, s: StoreState, es: seq<Event>): nat
    requires Legal(cfg, s, es)
    decreases |es|
  {
    if es == [] then 0
    else (if ChangesState(s, es[0]) then 1 else 0) + Changes(cfg, Apply(s, es[0]), es[1..])
  }

  /** A history without submissions or restarts changes run states no more
      often than the total it starts from. */
  lemma {:induction false} ChangesAreBounded(cfg: Config, s: StoreState, es: seq<Event>, cs: seq<Chain>)
    requires Legal(cfg, s, es) && Quiet(es) && Indexed(s) && Chained(MarksOf(s))
    requires Distinct(cs) && Covers(MarksOf(s), cs)
    ensures Changes(cfg, s, es) <= Total(MarksOf(s), cs)
    decreases |es|
  {
    if es == [] {
      TotalIsNotNegative(MarksOf(s), cs);
    } else {
      var s' := Apply(s, es[0]);
      StepLowersTotal(cfg, s, es[0], cs);
      EventKeepsIndexed(cfg, s, es[0]);
      EventKeepsChained(cfg, s, es[0]);
      ChangesAreBounded(cfg, s', es[1..], cs);
    }
  }

  // ------------------------------------------------------------------- times

  predicate TimedRun(r: Run) {
    r.state.InFlight() ==> r.dispatchedAt.Some? || r.startedAt.Some?
  }

  ghost predicate Timed(s: StoreState) {
    forall id <- s.runs :: TimedRun(s.runs[id])
  }

  lemma TouchedIsTimed(r: Run, e: Event)
    requires AboutARun(e) && TimedRun(r) && (e.Finish? ==> e.state.Terminal())
    ensures TimedRun(Touched(r, e))
  {
  }

  lemma EventKeepsTimed(cfg: Config, s: StoreState, e: Event)
    requires Indexed(s) && Timed(s) && Enabled(cfg, s, e)
    ensures Timed(Apply(s, e))
  {
    hide RecordsOk;
    hide TokensOk;
    hide RunsOk;
    if e.Submit? {
      SubmitKeepsTimed(cfg, s, e);
    } else if AboutARun(e) {
      RunEventMoves(cfg, s, e);
      TouchedIsTimed(s.runs[e.id], e);
      RunEventKeepsTimed(s, e);
    }
  }

  lemma RunEventKeepsTimed(s: StoreState, e: Event)
    requires Timed(s) && AboutARun(e) && e.id in s.runs && TimedRun(Touched(s.runs[e.id], e))
    requires e.Finish? && e.retry.Some? ==> e.retry.value.state.Queued?
    ensures Timed(Apply(s, e))
  {
  }

  lemma SubmitKeepsTimed(cfg: Config, s: StoreState, e: Event)
    requires Indexed(s) && Timed(s) && Enabled(cfg, s, e) && e.Submit?
    ensures Timed(Apply(s, e))
  {
    SubmitKeepsIndexed(cfg, s, e.reg, e.firsts);
    ExtensionIsTimed(AddRegression(s, e.reg), Apply(s, e), e.firsts);
  }

  lemma ExtensionIsTimed(s: StoreState, s': StoreState, rs: seq<Run>)
    requires Timed(s) && Extends(s, s', rs) && forall r <- rs :: r.state.Queued?
    ensures Timed(s')
  {
  }

  /** In every reachable state, restarts included, a run in flight has been
      dispatched or started at a known time. */
  lemma {:induction false} HistoryKeepsTimed(cfg: Config, s: StoreState, es: seq<Event>)
    requires Legal(cfg, s, es) && Indexed(s) && Timed(s)
    ensures Timed(ApplyAll(cfg, s, es))
    decreases |es|
  {
    if es != [] {
      EventKeepsIndexed(cfg, s, es[0]);
      EventKeepsTimed(cfg, s, es[0]);
      HistoryKeepsTimed(cfg, Apply(s, es[0]), es[1..]);
    }
  }
}
