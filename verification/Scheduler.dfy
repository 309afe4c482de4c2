/** The scheduler: submission, reconciliation, admission, runner events and
    cancellation, each as the events it causes. */
module Schedulers {
  import opened Wrappers
  import opened Counting
  import opened Sorting
  import opened Catalogs
  import opened Quotas
  import opened Model
  import opened Ledgers
  import opened LedgerObject
  import opened Admission
  import opened Lifecycle
  import opened Limits
  import opened Rollups
  import opened Safety
  import opened RecordFiles
  import opened Stores
  import opened Verdicts

  // -------------------------------------------------------------- explaining

  /** The events explain the change from s to s', and were disciplined if the
      reports behind them were. */
  ghost predicate Explains(cfg: Config, inventory: seq<NodeInfo>, s: StoreState, es: seq<Event>, s': StoreState, pinned: bool) {
    && Legal(cfg, s, es)
    && ApplyAll(cfg, s, es) == s'
    && (pinned ==> AllDisciplined(cfg, inventory, s, es))
  }

  lemma ExplainsConcat(cfg: Config, inventory: seq<NodeInfo>, s: StoreState, es: seq<Event>, m: StoreState,
                       fs: seq<Event>, s': StoreState, pinned: bool)
    requires Explains(cfg, inventory, s, es, m, pinned) && Explains(cfg, inventory, m, fs, s', pinned)
    ensures Explains(cfg, inventory, s, es + fs, s', pinned)
  {
    LegalConcat(cfg, s, es, fs);
    if pinned {
      DisciplinedConcat(cfg, inventory, s, es, fs);
    }
  }

  lemma {:induction false} DisciplinedConcat(cfg: Config, inventory: seq<NodeInfo>, s: StoreState, es: seq<Event>, fs: seq<Event>)
    requires Legal(cfg, s, es) && Legal(cfg, ApplyAll(cfg, s, es), fs) && Legal(cfg, s, es + fs)
    requires AllDisciplined(cfg, inventory, s, es) && AllDisciplined(cfg, inventory, ApplyAll(cfg, s, es), fs)
    ensures AllDisciplined(cfg, inventory, s, es + fs)
    decreases |es|
  {
    hide Disciplined;
    if es == [] {
      assert es + fs == fs;
    } else {
      assert (es + fs)[1..] == es[1..] + fs;
      DisciplinedConcat(cfg, inventory, Apply(s, es[0]), es[1..], fs);
    }
  }

  lemma ExplainsOne(cfg: Config, inventory: seq<NodeInfo>, s: StoreState, e: Event, pinned: bool)
    requires Enabled(cfg, s, e) && (pinned ==> Disciplined(cfg, inventory, s, e))
    ensures Explains(cfg, inventory, s, [e], Apply(s, e), pinned)
  {
    assert [e][1..] == [];
  }

  lemma ExplainsNothing(cfg: Config, inventory: seq<NodeInfo>, s: StoreState, pinned: bool)
    ensures Explains(cfg, inventory, s, [], s, pinned)
  {
  }

  // ------------------------------------------------------------- the backend

  datatype Phase = PhasePending | PhaseRunning | PhaseComplete | PhaseFailed | PhaseLost

  // What a poll of one run says; NoAnswer when the poll failed.
  datatype Status = NoAnswer | Status(phase: Phase, nodeId: string, nodeName: string, exitCode: Option<int>)

  /** The status names the node the run was pinned to, or none. */
  predicate StatusPinned(r: Run, st: Status) {
    st.NoAnswer? || st.nodeId == "" || (st.nodeId == r.nodeId && st.nodeName == r.nodeName)
  }

  // What a runner reports. State None stands for an empty state field.
  datatype RunEvent =
    | Started(id: string, nodeId: string, nodeName: string)
    | InProgress(id: string, summary: Summary)
    | Finished(id: string, state: Option<RunState>, summary: Summary, nodeId: string, nodeName: string)
    | OtherPhase(id: string)

  const GRACE := 300

  function StartOf(r: Run): Option<int> {
    if r.startedAt.Some? then r.startedAt else r.dispatchedAt
  }

  function TimeoutOf(cfg: Config, r: Run): nat {
    if r.spec.timeout == 0 then cfg.defaultTimeout else r.spec.timeout
  }

  /** The run has overrun its timeout and the grace allowed on top. */
  predicate Overdue(cfg: Config, r: Run, now: int) {
    StartOf(r).Some? && StartOf(r).value + TimeoutOf(cfg, r) + GRACE <= now
  }

  /** Is nothing left that timed out? */
  ghost predicate NoneOverdue(cfg: Config, s: StoreState, now: int) {
    forall id <- s.runs :: s.runs[id].state.InFlight() ==> !Overdue(cfg, s.runs[id], now)
  }

  /** The run with this verdict. */
  function Ended(r: Run, state: RunState, now: int): Run {
    r.(state := state, finishedAt := Some(now))
  }

  /** What one poll makes of a run in flight: placed where the backend says it
      is; running once it runs; and when the task is over without a verdict of
      its runner, passed only if it ended well and reported tests. */
  function Polled(r: Run, status: Status, now: int): Run {
    if status.NoAnswer? then r
    else
      var p := if status.nodeId == "" then r else r.(nodeId := status.nodeId,
                                                     nodeName := if r.nodeId == status.nodeId then r.nodeName else status.nodeName);
      match status.phase
      case PhasePending => p
      case PhaseRunning => if r.state.Dispatched? then p.(state := Running, startedAt := Some(now)) else p
      case PhaseComplete =>
        Ended(p, if r.summary.tests > 0 && (status.exitCode.Some? ==> status.exitCode.value == 0) then Passed else Errored, now)
      case PhaseFailed => Ended(p, Errored, now)
      case PhaseLost => Ended(p, Errored, now)
  }

  function PolledBy(poll: string -> Status, now: int): Run -> Run {
    (r: Run) => Polled(r, poll(r.id), now)
  }

  function TimedOutAt(cfg: Config, now: int): Run -> Run {
    (r: Run) => if r.state.InFlight() && Overdue(cfg, r, now) then Ended(r, Timeout, now) else r
  }

  /** What reconciling makes of a run. */
  function Reconciled(cfg: Config, poll: string -> Status, now: int, r: Run): Run {
    if !r.state.InFlight() then r
    else if Overdue(cfg, r, now) then Ended(r, Timeout, now)
    else Polled(r, poll(r.id), now)
  }

  /** What a poll's answer asks for: the node it names; running, from now, for
      a dispatched run that runs; at the end passed, if it ended well and tests
      were reported, and otherwise errored. */
  ghost predicate Answered(status: Status, now: int, r: Run, r': Run) {
    if status == NoAnswer then r' == r
    else
      && r'.(state := r.state, startedAt := r.startedAt, finishedAt := r.finishedAt)
         == (if status.nodeId == "" || status.nodeId == r.nodeId then r else r.(nodeId := status.nodeId, nodeName := status.nodeName))
      && match status.phase
         case PhasePending => r'.state == r.state && r'.startedAt == r.startedAt && r'.finishedAt == r.finishedAt
         case PhaseRunning =>
           && r'.state == Running && r'.finishedAt == r.finishedAt
           && r'.startedAt == if r.state == Dispatched then Some(now) else r.startedAt
         case PhaseComplete =>
           && r'.state == (if (status.exitCode == None || status.exitCode == Some(0)) && r.summary.tests > 0 then Passed else Errored)
           && r'.startedAt == r.startedAt && r'.finishedAt == Some(now)
         case PhaseFailed => r'.state == Errored && r'.startedAt == r.startedAt && r'.finishedAt == Some(now)
         case PhaseLost => r'.state == Errored && r'.startedAt == r.startedAt && r'.finishedAt == Some(now)
  }

  /** A run in flight is timed out once its suite's timeout, or the configured
      one if that is 0, and 300 seconds more have passed since it started, or
      since it was dispatched if it has not; before that, and without either
      time, it is as the poll's answer makes it. Other runs are left alone. */
  ghost predicate InDueTime(cfg: Config, poll: string -> Status, now: int, r: Run, r': Run) {
    if r.state != Dispatched && r.state != Running then r' == r
    else
      var since := if r.startedAt != None then r.startedAt else r.dispatchedAt;
      && (since != None && r.spec.timeout > 0 && since.value + r.spec.timeout + 300 <= now ==>
            r' == r.(state := Timeout, finishedAt := Some(now)))
      && (since != None && r.spec.timeout == 0 && since.value + cfg.defaultTimeout + 300 <= now ==>
            r' == r.(state := Timeout, finishedAt := Some(now)))
      && (since != None && r.spec.timeout > 0 && since.value + r.spec.timeout + 300 > now ==> Answered(poll(r.id), now, r, r'))
      && (since != None && r.spec.timeout == 0 && since.value + cfg.defaultTimeout + 300 > now ==> Answered(poll(r.id), now, r, r'))
      && (since == None ==> Answered(poll(r.id), now, r, r'))
  }

  lemma PolledIsAnswered(status: Status, now: int, r: Run)
    requires r.state.InFlight()
    ensures Answered(status, now, r, Polled(r, status, now))
  {
  }

  lemma ReconciledSettles(cfg: Config, poll: string -> Status, now: int, r: Run)
    ensures InDueTime(cfg, poll, now, r, Reconciled(cfg, poll, now, r))
  {
    hide Polled;
    hide Answered;
    if r.state.InFlight() {
      PolledIsAnswered(poll(r.id), now, r);
    }
  }

  /** The poll passes a run over failures on record: its task is over and ended
      well, but the last results it reported had some. */
  predicate PassesFailures(cfg: Config, poll: string -> Status, now: int, r: Run) {
    && r.state.InFlight() && !Overdue(cfg, r, now)
    && poll(r.id).Status? && poll(r.id).phase.PhaseComplete? && (poll(r.id).exitCode.Some? ==> poll(r.id).exitCode.value == 0)
    && r.summary.tests > 0 && r.summary.failed + r.summary.errors > 0
  }

  /** Reconciling keeps a run clean exactly when it does not. */
  lemma ReconciledClean(cfg: Config, poll: string -> Status, now: int, r: Run)
    requires Clean(r)
    ensures Clean(Reconciled(cfg, poll, now, r)) <==> !PassesFailures(cfg, poll, now, r)
  {
    hide Overdue;
  }

  lemma ReconciledAllClean(cfg: Config, poll: string -> Status, now: int, s: StoreState, s': StoreState)
    requires AllClean(s) && forall id <- s.runs :: id in s'.runs && s'.runs[id] == Reconciled(cfg, poll, now, s.runs[id])
    requires forall id <- s'.runs | id !in s.runs :: s'.runs[id].state.Queued?
    ensures AllClean(s') <==> forall id <- s.runs :: !PassesFailures(cfg, poll, now, s.runs[id])
  {
    hide Reconciled;
    hide PassesFailures;
    forall id <- s.runs ensures Clean(s'.runs[id]) <==> !PassesFailures(cfg, poll, now, s.runs[id]) {
      ReconciledClean(cfg, poll, now, s.runs[id]);
    }
  }

  /** The runs of s are still there, those in done as f makes them, the others
      as they were; new ones are queued. */
  ghost predicate Turned(s: StoreState, s': StoreState, done: set<string>, f: Run -> Run) {
    && s.runs.Keys <= s'.runs.Keys
    && (forall id <- s.runs :: s'.runs[id] == if id in done then f(s.runs[id]) else s.runs[id])
    && (forall id <- s'.runs | id !in s.runs :: s'.runs[id].state.Queued?)
  }

  lemma TurnNothing(s: StoreState, f: Run -> Run)
    ensures Turned(s, s, Ids([]), f)
  {
  }

  lemma NothingTouched(s: StoreState, id: string)
    ensures TouchesOnly(s, s, id)
  {
  }

  lemma TurnOne(s: StoreState, m: StoreState, s': StoreState, rs: seq<Run>, i: nat, f: Run -> Run)
    requires i < |rs| && Turned(s, m, Ids(rs[..i]), f) && rs[i].id in s.runs && s.runs[rs[i].id] == rs[i]
    requires forall a, b | 0 <= a < b < |rs| :: rs[a].id != rs[b].id
    requires TouchesOnly(m, s', rs[i].id) && s'.runs[rs[i].id] == f(rs[i])
    ensures Turned(s, s', Ids(rs[..i + 1]), f)
  {
    hide Ids;
    OneMoreId(rs, i);
  }

  lemma OneMoreId(rs: seq<Run>, i: nat)
    requires i < |rs| && forall a, b | 0 <= a < b < |rs| :: rs[a].id != rs[b].id
    ensures Ids(rs[..i + 1]) == Ids(rs[..i]) + {rs[i].id} && rs[i].id !in Ids(rs[..i])
  {
    assert rs[..i + 1] == rs[..i] + [rs[i]];
  }

  // ----------------------------------------------------------- the admit loop

  /** queue with the entries already attempted struck out. */
  ghost predicate StruckOut(queued: seq<Option<Run>>, queue: seq<Run>, attempts: seq<Attempt>) {
    && |queued| == |queue|
    && forall i | 0 <= i < |queue| ::
         if Attempted(attempts, i) then queued[i].None? else queued[i] == Some(queue[i])
  }

  method IsEligible(l: Ledger, r: Run) returns (yes: bool)
    requires l.State().Valid()
    ensures yes == Eligible(l.State(), r)
  {
    var pool := l.cat.Pool(r.pool);
    if pool.None? {
      return false;
    }
    var why := l.Block(r, None);
    if why.Some? {
      return false;
    }
    var node, _ := l.Pick(pool.value, r);
    yes := node.Some?;
  }

  /** The entry to attempt next, or -1. */
  method PickNext(l: Ledger, queued: seq<Option<Run>>, ghost queue: seq<Run>, ghost attempts: seq<Attempt>) returns (best: int)
    requires l.State().Valid() && Ordered(queue) && StruckOut(queued, queue, attempts)
    ensures best < 0 ==> forall i :: !Open(l.State(), queue, attempts, i)
    ensures best >= 0 ==> Open(l.State(), queue, attempts, best)
    ensures best >= 0 ==> forall j | Open(l.State(), queue, attempts, j) :: Preferred(l.State(), queue, best, j)
  {
    ghost var s := l.State();
    ghost var open := set i: nat | i < |queue| && Open(s, queue, attempts, i);
    best := NextAmong(l, queued, queue, attempts, open);
    assert forall i :: Open(s, queue, attempts, i) <==> i in open;
  }

  method NextAmong(l: Ledger, queued: seq<Option<Run>>, ghost queue: seq<Run>, ghost attempts: seq<Attempt>, ghost open: set<nat>)
    returns (best: int)
    requires l.State().Valid() && Ordered(queue) && StruckOut(queued, queue, attempts)
    requires forall i: nat {:trigger Open(l.State(), queue, attempts, i)} :: i in open <==> Open(l.State(), queue, attempts, i)
    requires forall i <- open :: i < |queue|
    ensures best < 0 ==> open == {}
    ensures best >= 0 ==> best in open && forall j <- open :: Preferred(l.State(), queue, best, j)
  {
    best := -1;
    for i := 0 to |queued|
      invariant best < 0 ==> forall j <- open :: i <= j
      invariant best >= 0 ==> best in open && best < i && queued[best] == Some(queue[best])
      invariant best >= 0 ==> forall j <- open | j < i :: Preferred(l.State(), queue, best, j)
    {
      if queued[i].None? {
        assert !Open(l.State(), queue, attempts, i);
        continue;
      }
      var r := queued[i].value;
      var yes := IsEligible(l, r);
      assert yes <==> Open(l.State(), queue, attempts, i);
      if !yes {
        continue;
      }
      if best >= 0 && r.priority < queued[best].value.priority {
        forall j <- open | j >= i ensures Preferred(l.State(), queue, best, j) {
          assert j > i ==> Before(queue[i], queue[j]);
        }
        break;
      }
      assert best >= 0 ==> Before(queue[best], queue[i]);
      var held := if r.user in l.byUser then l.byUser[r.user] else 0;
      if best < 0 {
        best := i;
      } else {
        var u := queued[best].value.user;
        if held < (if u in l.byUser then l.byUser[u] else 0) {
          best := i;
        }
      }
    }
  }

  /** The queued runs of a snapshot, in queue order. */
  method QueueOf(all: seq<Run>) returns (queue: seq<Run>)
    ensures Ordered(queue)
    ensures forall i, j | 0 <= i < j < |queue| ::
      queue[i].priority >= queue[j].priority && (queue[i].priority == queue[j].priority ==> queue[i].queuedAt <= queue[j].queuedAt)
    ensures forall r :: r in queue <==> r in all && r.state.Queued?
    ensures (forall i, j | 0 <= i < j < |all| :: all[i].id != all[j].id) ==>
              forall i, j | 0 <= i < j < |queue| :: queue[i].id != queue[j].id
  {
    queue := [];
    for i := 0 to |all|
      invariant forall r :: r in queue <==> r in all[..i] && r.state.Queued?
      invariant (forall i, j | 0 <= i < j < |all| :: all[i].id != all[j].id) ==>
                  forall i, j | 0 <= i < j < |queue| :: queue[i].id != queue[j].id
    {
      assert all[..i + 1] == all[..i] + [all[i]];
      if all[i].state.Queued? {
        queue := queue + [all[i]];
      }
    }
    assert all[..|all|] == all;
    ghost var listed := queue;
    queue := Sort(queue, (a: Run, b: Run) => Before(a, b));
    if forall i, j | 0 <= i < j < |all| :: all[i].id != all[j].id {
      UniqueByPermutes(listed, queue, IdOf);
    }
  }

  /** No run but id differs, except for new ones, which are queued. */
  ghost predicate TouchesOnly(s: StoreState, s': StoreState, id: string) {
    && s.runs.Keys <= s'.runs.Keys
    && (forall x <- s.runs | x != id :: s'.runs[x] == s.runs[x])
    && (forall x <- s'.runs | x !in s.runs :: s'.runs[x].state.Queued?)
  }

  /** The one event is this run's verdict. */
  ghost predicate Verdict(events: seq<Event>, id: string, state: RunState, now: int) {
    |events| == 1 && events[0].Finish? && events[0].id == id && events[0].state == state && events[0].now == now
  }

  lemma VerdictIsEnabled(cfg: Config, inventory: seq<NodeInfo>, s: StoreState, e: Event)
    requires e.Finish? && e.id in s.runs && !s.runs[e.id].state.Terminal() && e.state.Terminal() && !e.state.Canceled?
    requires e.retry.Some? <==> e.state.Retryable() && s.runs[e.id].attempt < s.runs[e.id].maxAttempts
    requires e.retry.Some? ==> IsRetryOf(cfg, s, s.runs[e.id], e.retry.value)
    ensures Enabled(cfg, s, e) && Disciplined(cfg, inventory, s, e)
    ensures e.retry.Some? ==> e.retry.value.state.Queued? && e.retry.value.id !in s.runs
  {
  }

  lemma RunEventTouchesOnly(s: StoreState, e: Event)
    requires AboutARun(e) && e.id in s.runs && s.runs[e.id].id == e.id
    requires e.Finish? && e.retry.Some? ==> e.retry.value.state.Queued? && e.retry.value.id !in s.runs
    ensures TouchesOnly(s, Apply(s, e), e.id)
    ensures e.id in Apply(s, e).runs && Apply(s, e).runs[e.id] == Touched(s.runs[e.id], e)
  {
    TouchedKeepsIdentity(s.runs[e.id], e);
  }

  lemma TouchesOnlyTwice(s: StoreState, m: StoreState, s': StoreState, id: string)
    requires TouchesOnly(s, m, id) && TouchesOnly(m, s', id) && id in s.runs
    ensures TouchesOnly(s, s', id)
  {
  }

  /** The runs of a snapshot not dealt with yet are still as they were, and no
      other run is in flight and overdue. */
  ghost predicate Handled(cfg: Config, s: StoreState, rest: seq<Run>, now: int) {
    && (forall r <- rest :: r.id in s.runs && s.runs[r.id] == r)
    && (forall id <- s.runs :: (forall r <- rest :: r.id != id) ==> s.runs[id].state.InFlight() ==> !Overdue(cfg, s.runs[id], now))
  }

  lemma HandledOne(cfg: Config, s: StoreState, s': StoreState, rs: seq<Run>, i: nat, now: int)
    requires i < |rs| && Handled(cfg, s, rs[i..], now) && TouchesOnly(s, s', rs[i].id)
    requires forall a, b | 0 <= a < b < |rs| :: rs[a].id != rs[b].id
    requires rs[i].id in s'.runs && (s'.runs[rs[i].id].state.InFlight() ==> !Overdue(cfg, s'.runs[rs[i].id], now))
    ensures Handled(cfg, s', rs[i + 1..], now)
  {
    assert rs[i..] == [rs[i]] + rs[i + 1..];
    forall r <- rs[i + 1..] ensures r.id in s'.runs && s'.runs[r.id] == r {
      var k :| i + 1 <= k < |rs| && rs[k] == r;
      assert r in rs[i..];
    }
    forall id <- s'.runs | (forall r <- rs[i + 1..] :: r.id != id) && s'.runs[id].state.InFlight()
      ensures !Overdue(cfg, s'.runs[id], now)
    {
      if id != rs[i].id {
        assert forall r <- rs[i..] :: r.id != id;
      }
    }
  }

  // -------------------------------------------------------------- the object

  class Scheduler {
    const cfg: Config
    const inventory: seq<NodeInfo>
    const st: Store

    constructor (cfg: Config, inventory: seq<NodeInfo>, st: Store)
      ensures this.cfg == cfg && this.inventory == inventory && this.st == st
    {
      this.cfg := cfg;
      this.inventory := inventory;
      this.st := st;
    }

    /** Change one run the way an event does. */
    method Touch(id: string, fn: Run -> Run, ghost e: Event, ghost pinned: bool) returns (ghost events: seq<Event>)
      requires st.Valid() && id in st.byRun && AboutARun(e) && e.id == id && !e.Finish?
      requires Enabled(cfg, st.State(), e) && (pinned ==> Disciplined(cfg, inventory, st.State(), e))
      requires fn(st.byRun[id]) == Touched(st.byRun[id], e)
      modifies st
      ensures st.Valid() && events == [e]
      ensures st.State() == PutRun(old(st.State()), Touched(old(st.byRun)[id], e))
      ensures Explains(cfg, inventory, old(st.State()), events, st.State(), pinned)
      ensures TouchesOnly(old(st.State()), st.State(), id) && id in st.byRun && st.byRun[id] == Touched(old(st.byRun)[id], e)
    {
      events := [e];
      RunIsListed(st.State(), id);
      TouchedKeepsIdentity(st.byRun[id], e);
      ExplainsOne(cfg, inventory, st.State(), e, pinned);
      RunEventTouchesOnly(st.State(), e);
      var _ := st.UpdateRun(id, fn);
    }

    /** The attempt after r, under a fresh id and token. */
    method NextAttempt(r: Run, now: int) returns (retry: Run)
      requires r.regressionId in st.byReg
      ensures IsRetryOf(cfg, st.State(), r, retry)
      ensures StartsOut(st.byReg[r.regressionId].reg, r.spec, r.attempt + 1, now, retry) && retry.maxAttempts == r.maxAttempts
    {
      var id := st.NewRunId();
      var token := st.NewToken();
      retry := NewRun(cfg, st.byReg[r.regressionId].reg, r.spec, r.attempt + 1, id, token, now).(maxAttempts := r.maxAttempts);
    }

    /** Mark a run terminal, unless it is already, and queue its retry when one is allowed. */
    method Finish(id: string, state: RunState, now: int) returns (ghost events: seq<Event>)
      requires st.Valid() && state.Terminal() && !state.Canceled?
      modifies st
      ensures st.Valid()
      ensures Explains(cfg, inventory, old(st.State()), events, st.State(), true)
      ensures if id !in old(st.byRun) || old(st.byRun)[id].state.Terminal() then events == []
              else Verdict(events, id, state, now)
      ensures TouchesOnly(old(st.State()), st.State(), id)
      ensures id in old(st.byRun) ==>
        id in st.byRun && st.byRun[id] == if old(st.byRun)[id].state.Terminal() then old(st.byRun)[id] else Ended(old(st.byRun)[id], state, now)
    {
      hide Explains;
      hide Mirrored;
      hide RecordsOk;
      hide TokensOk;
      hide Enabled;
      hide IsRetryOf;
      hide TouchesOnly;
      hide Disciplined;
      hide RunsOk;
      NothingTouched(st.State(), id);
      events := [];
      if id !in st.byRun || st.byRun[id].state.Terminal() {
        ExplainsNothing(cfg, inventory, st.State(), true);
        return;
      }
      ghost var s := st.State();
      var retry := Conclude(id, state, now);
      ghost var e := Event.Finish(id, state, now, retry);
      RunIsListed(s, id);
      VerdictIsEnabled(cfg, inventory, s, e);
      ExplainsOne(cfg, inventory, s, e, true);
      RunEventTouchesOnly(s, e);
      events := [e];
    }

    method Conclude(id: string, state: RunState, now: int) returns (retry: Option<Run>)
      requires st.Valid() && id in st.byRun
      modifies st
      ensures st.Valid() && st.State() == Apply(old(st.State()), Event.Finish(id, state, now, retry))
      ensures retry.Some? <==> state.Retryable() && old(st.byRun)[id].attempt < old(st.byRun)[id].maxAttempts
      ensures retry.Some? ==> IsRetryOf(cfg, old(st.State()), old(st.byRun)[id], retry.value)
    {
      ghost var s := st.State();
      var r := st.byRun[id];
      RunIsListed(s, id);
      var _ := st.UpdateRun(id, (r: Run) => r.(state := state, finishedAt := Some(now)));
      ghost var m := st.State();
      assert m == PutRun(s, r.(state := state, finishedAt := Some(now)));
      retry := None;
      if state.Retryable() && r.attempt < r.maxAttempts {
        var next := NextAttempt(r, now);
        RetryFits(cfg, m, r, next);
        QueueRetry(next);
        retry := Some(next);
        assert IsRetryOf(cfg, s, r, next);
      }
      ApplyFinish(s, id, state, now, retry);
    }

    method QueueRetry(r: Run)
      requires st.Valid() && FreshRun(st.State(), r) && r.regressionId in st.byReg
      requires r.spec in st.byReg[r.regressionId].reg.suites && r.suite == r.spec.name
      modifies st
      ensures st.Valid() && st.State() == Lifecycle.AddRun(old(st.State()), r)
    {
      st.AddRun(r);
    }

    /** Time a run out when it has overrun; the deadline starts at dispatch. */
    method EnforceTimeout(r: Run, now: int) returns (timedOut: bool, ghost events: seq<Event>)
      requires st.Valid()
      modifies st
      ensures st.Valid()
      ensures Explains(cfg, inventory, old(st.State()), events, st.State(), true)
      ensures timedOut <==> Overdue(cfg, r, now)
      ensures timedOut <==>
        var since := if r.startedAt != None then r.startedAt else r.dispatchedAt;
        since != None && since.value + (if r.spec.timeout > 0 then r.spec.timeout else cfg.defaultTimeout) + 300 <= now
      ensures !timedOut ==> events == [] && st.State() == old(st.State())
      ensures TouchesOnly(old(st.State()), st.State(), r.id)
      ensures r.id in old(st.byRun) && old(st.byRun)[r.id] == r && r.state.InFlight() ==>
        r.id in st.byRun && st.byRun[r.id] == TimedOutAt(cfg, now)(r)
    {
      hide Explains;
      hide TouchesOnly;
      hide Indexed;
      hide Mirrored;
      ExplainsNothing(cfg, inventory, st.State(), true);
      NothingTouched(st.State(), r.id);
      timedOut, events := false, [];
      var timeout := r.spec.timeout;
      if timeout == 0 {
        timeout := cfg.defaultTimeout;
      }
      var start := r.dispatchedAt;
      if r.startedAt.Some? {
        start := r.startedAt;
      }
      if start.None? {
        return;
      }
      if now < start.value + timeout + GRACE {
        return;
      }
      timedOut := true;
      events := Finish(r.id, Timeout, now);
    }

    /** What the backend says about a run: where it is, that it started, ended or was lost. */
    method ApplyStatus(r: Run, status: Status, now: int) returns (ghost events: seq<Event>)
      requires st.Valid() && status.Status? && r.id in st.byRun && st.byRun[r.id] == r && r.state.InFlight()
      modifies st
      ensures st.Valid()
      ensures Explains(cfg, inventory, old(st.State()), events, st.State(), StatusPinned(r, status))
      ensures TouchesOnly(old(st.State()), st.State(), r.id) && r.id in st.byRun
      ensures st.byRun[r.id] == Polled(r, status, now)
    {
      events := NotePlacement(r, status);
      ghost var m := st.State();
      ghost var more := React(r, status, now);
      ExplainsConcat(cfg, inventory, old(st.State()), events, m, more, st.State(), StatusPinned(r, status));
      TouchesOnlyTwice(old(st.State()), m, st.State(), r.id);
      events := events + more;
    }

    method NotePlacement(r: Run, status: Status) returns (ghost events: seq<Event>)
      requires st.Valid() && status.Status? && r.id in st.byRun && st.byRun[r.id] == r
      modifies st
      ensures st.Valid()
      ensures Explains(cfg, inventory, old(st.State()), events, st.State(), StatusPinned(r, status))
      ensures TouchesOnly(old(st.State()), st.State(), r.id) && r.id in st.byRun
      ensures st.byRun[r.id] == if status.nodeId == "" || r.nodeId == status.nodeId then r
                                else r.(nodeId := status.nodeId, nodeName := status.nodeName)
    {
      events := [];
      if status.nodeId != "" && r.nodeId != status.nodeId {
        events := Touch(r.id, (run: Run) => run.(nodeId := status.nodeId, nodeName := status.nodeName),
                        Relocate(r.id, status.nodeId, status.nodeName), StatusPinned(r, status));
      }
    }

    method React(r: Run, status: Status, now: int) returns (ghost events: seq<Event>)
      requires st.Valid() && status.Status? && r.id in st.byRun && r.state.InFlight()
      requires st.byRun[r.id] == Polled(r, status.(phase := PhasePending), now)
      modifies st
      ensures st.Valid()
      ensures Explains(cfg, inventory, old(st.State()), events, st.State(), true)
      ensures TouchesOnly(old(st.State()), st.State(), r.id) && r.id in st.byRun
      ensures st.byRun[r.id] == Polled(r, status, now)
    {
      hide Explains;
      hide Indexed;
      hide Mirrored;
      hide TouchesOnly;
      ExplainsNothing(cfg, inventory, st.State(), true);
      NothingTouched(st.State(), r.id);
      events := [];
      match status.phase {
        case PhaseRunning =>
          if r.state == Dispatched {
            events := Touch(r.id, (run: Run) =>
              if run.state == Dispatched then run.(state := Running, startedAt := Some(now)) else run,
              Observe(r.id, now), true);
          }
        case PhaseComplete =>
          events := End(r.id, status.exitCode.Some? && status.exitCode.value != 0, now);
        case PhaseFailed =>
          events := End(r.id, true, now);
        case PhaseLost =>
          events := Finish(r.id, Errored, now);
        case PhasePending =>
      }
    }

    /** The task ended without a verdict from its runner: it failed, or it
        passed if it reported any tests. */
    method End(id: string, failed: bool, now: int) returns (ghost events: seq<Event>)
      requires st.Valid()
      modifies st
      ensures st.Valid()
      ensures Explains(cfg, inventory, old(st.State()), events, st.State(), true)
      ensures if id !in old(st.byRun) || old(st.byRun)[id].state.Terminal() then events == []
              else Verdict(events, id, if failed || old(st.byRun)[id].summary.tests == 0 then Errored else Passed, now)
      ensures TouchesOnly(old(st.State()), st.State(), id)
      ensures id in old(st.byRun) && !old(st.byRun)[id].state.Terminal() ==>
        id in st.byRun && st.byRun[id] == Ended(old(st.byRun)[id], if failed || old(st.byRun)[id].summary.tests == 0 then Errored else Passed, now)
    {
      events := [];
      if id !in st.byRun || st.byRun[id].state.Terminal() {
        return;
      }
      var state := Passed;
      if failed {
        state := Errored;
      } else if st.byRun[id].summary.tests == 0 {
        state := Errored;
      }
      events := Finish(id, state, now);
    }

    /** Align the runs in flight with the backend: time out what has overrun,
        then apply what the backend says of the rest. */
    method Reconcile(poll: string -> Status, now: int) returns (ghost events: seq<Event>)
      requires st.Valid()
      modifies st
      ensures st.Valid()
      ensures Explains(cfg, inventory, old(st.State()), events, st.State(), AllPinned(old(st.State()), poll))
      ensures NoneOverdue(cfg, st.State(), now)
      ensures forall id <- old(st.byRun) :: id in st.byRun && st.byRun[id] == Reconciled(cfg, poll, now, old(st.byRun)[id])
      ensures forall id <- old(st.byRun) :: id in st.byRun && InDueTime(cfg, poll, now, old(st.byRun)[id], st.byRun[id])
      ensures AllClean(old(st.State())) ==>
                (AllClean(st.State()) <==> forall id <- old(st.byRun) :: !PassesFailures(cfg, poll, now, old(st.byRun)[id]))
    {
      hide AllClean;
      hide PassesFailures;
      hide Reconciled;
      hide InDueTime;
      hide Explains;
      hide NoneOverdue;
      hide Turned;
      hide Overdue;
      hide Polled;
      hide StillInFlight;
      hide Mirrored;
      hide AllPinned;
      hide StatusPinned;
      hide Snapshot;
      ghost var s, pinned := st.State(), AllPinned(st.State(), poll);
      var all := st.AllRuns();
      var inflight;
      inflight, events := TimeOutAll(all, now);
      ghost var m := st.State();
      ghost var more := PollAll(inflight, poll, now);
      InFlightPinned(s, m, all, inflight, poll);
      PinnedWeakerThan(cfg, inventory, s, events, m, pinned, true);
      PinnedWeakerThan(cfg, inventory, m, more, st.State(), pinned, forall r <- inflight :: StatusPinned(r, poll(r.id)));
      ExplainsConcat(cfg, inventory, s, events, m, more, st.State(), pinned);
      events := events + more;
      TurnedTwice(cfg, s, m, st.State(), all, inflight, poll, now);
      forall id <- s.runs ensures InDueTime(cfg, poll, now, s.runs[id], st.byRun[id]) {
        ReconciledSettles(cfg, poll, now, s.runs[id]);
      }
      if AllClean(s) {
        ReconciledAllClean(cfg, poll, now, s, st.State());
      }
    }

    method TimeOutAll(all: seq<Run>, now: int) returns (inflight: seq<Run>, ghost events: seq<Event>)
      requires st.Valid() && Snapshot(st.State(), all)
      modifies st
      ensures st.Valid()
      ensures Explains(cfg, inventory, old(st.State()), events, st.State(), true)
      ensures NoneOverdue(cfg, st.State(), now)
      ensures StillInFlight(st.State(), inflight) && forall r <- inflight :: r in all
      ensures Turned(old(st.State()), st.State(), Ids(all), TimedOutAt(cfg, now))
      ensures forall r <- all | r.state.InFlight() && !Overdue(cfg, r, now) :: r in inflight
    {
      hide Explains;
      hide NoneOverdue;
      hide Mirrored;
      hide Indexed;
      hide Overdue;
      hide Turned;
      hide Sifted;
      hide TouchesOnly;
      hide StillInFlight;
      inflight, events := [], [];
      ghost var s := st.State();
      ExplainsNothing(cfg, inventory, s, true);
      StartSifting(cfg, s, all, now);
      for i := 0 to |all|
        invariant st.Valid()
        invariant Explains(cfg, inventory, s, events, st.State(), true)
        invariant Sifted(cfg, st.State(), all, i, inflight, now)
        invariant Turned(s, st.State(), Ids(all[..i]), TimedOutAt(cfg, now))
      {
        var r := all[i];
        ghost var m := st.State();
        NextSifted(cfg, s, m, all, i, inflight, now);
        if r.state != Dispatched && r.state != Running {
          SiftIdle(cfg, m, all, i, inflight, now);
          TurnOne(s, m, m, all, i, TimedOutAt(cfg, now));
          continue;
        }
        var timedOut;
        ghost var more;
        timedOut, more := EnforceTimeout(r, now);
        ExplainsConcat(cfg, inventory, s, events, m, more, st.State(), true);
        events := events + more;
        SiftTimed(cfg, m, st.State(), all, i, inflight, timedOut, now);
        TurnOne(s, m, st.State(), all, i, TimedOutAt(cfg, now));
        if timedOut {
          continue;
        }
        inflight := inflight + [r];
      }
      SiftedAll(cfg, st.State(), all, inflight, now);
      assert all[..|all|] == all;
    }

    /** Ask the backend about one run; without an answer, leave it. */
    method PollOne(r: Run, poll: string -> Status, now: int) returns (ghost events: seq<Event>)
      requires st.Valid() && r.id in st.byRun && st.byRun[r.id] == r && r.state.InFlight()
      modifies st
      ensures st.Valid()
      ensures Explains(cfg, inventory, old(st.State()), events, st.State(), StatusPinned(r, poll(r.id)))
      ensures TouchesOnly(old(st.State()), st.State(), r.id) && r.id in st.byRun
      ensures st.byRun[r.id] == Polled(r, poll(r.id), now)
    {
      hide Explains;
      hide TouchesOnly;
      hide Indexed;
      hide Mirrored;
      var status := poll(r.id);
      if status.NoAnswer? {
        events := [];
        ExplainsNothing(cfg, inventory, st.State(), StatusPinned(r, status));
        NothingTouched(st.State(), r.id);
        return;
      }
      events := ApplyStatus(r, status, now);
    }

    method PollAll(inflight: seq<Run>, poll: string -> Status, now: int) returns (ghost events: seq<Event>)
      requires st.Valid() && StillInFlight(st.State(), inflight) && NoneOverdue(cfg, st.State(), now)
      modifies st
      ensures st.Valid()
      ensures Explains(cfg, inventory, old(st.State()), events, st.State(), forall r <- inflight :: StatusPinned(r, poll(r.id)))
      ensures NoneOverdue(cfg, st.State(), now)
      ensures Turned(old(st.State()), st.State(), Ids(inflight), PolledBy(poll, now))
    {
      hide Explains;
      hide NoneOverdue;
      hide Indexed;
      hide Mirrored;
      hide Turned;
      hide Polled;
      hide TouchesOnly;
      hide StatusPinned;
      hide Ids;
      events := [];
      ghost var s := st.State();
      ghost var pinned := forall r <- inflight :: StatusPinned(r, poll(r.id));
      ExplainsNothing(cfg, inventory, s, pinned);
      TurnNothing(s, PolledBy(poll, now));
      assert inflight[..0] == [] && inflight[0..] == inflight;
      for i := 0 to |inflight|
        invariant st.Valid()
        invariant Explains(cfg, inventory, s, events, st.State(), pinned)
        invariant NoneOverdue(cfg, st.State(), now)
        invariant StillInFlight(st.State(), inflight[i..])
        invariant Turned(s, st.State(), Ids(inflight[..i]), PolledBy(poll, now))
      {
        var r := inflight[i];
        assert r in inflight[i..];
        ghost var m := st.State();
        ghost var more := PollOne(r, poll, now);
        PinnedWeakerThan(cfg, inventory, m, more, st.State(), pinned, StatusPinned(r, poll(r.id)));
        ExplainsConcat(cfg, inventory, s, events, m, more, st.State(), pinned);
        events := events + more;
        TurnOne(s, m, st.State(), inflight, i, PolledBy(poll, now));
        RestStillInFlight(m, st.State(), inflight[i..]);
        assert inflight[i..][1..] == inflight[i + 1..];
        AppliedNotOverdue(cfg, m, st.State(), r, poll(r.id), now);
      }
      assert inflight[..|inflight|] == inflight;
    }

    // ------------------------------------------------------- runner events

    /** Apply a runner's report; false when it names no run or no known phase. */
    method Ingest(ev: RunEvent, now: int) returns (ok: bool, ghost events: seq<Event>)
      requires st.Valid()
      requires ev.Finished? && ev.state.Some? ==> ev.state.value.Terminal() && !ev.state.value.Canceled?
      modifies st
      ensures st.Valid()
      ensures ok <==> ev.id in old(st.byRun) && !ev.OtherPhase?
      ensures !ok ==> events == []
      ensures ok ==> Reports(old(st.byRun)[ev.id], ev, now, events)
      ensures !ok ==> st.State() == old(st.State())
      ensures ok ==>
        && ev.id in st.byRun && AsReported(old(st.byRun)[ev.id], ev, now, st.byRun[ev.id])
        && (forall id <- old(st.byRun) | id != ev.id :: id in st.byRun && st.byRun[id] == old(st.byRun)[id])
        && RetriedAfter(old(st.byRun), st.byRun, ev.id)
      ensures ok && AllClean(old(st.State())) ==> (AllClean(st.State()) <==> ReportKeepsClean(old(st.byRun)[ev.id], ev))
      ensures Explains(cfg, inventory, old(st.State()), events, st.State(), ok ==> ReportPinned(old(st.byRun)[ev.id], ev))
    {
      hide AllClean;
      hide ReportKeepsClean;
      hide AsReported;
      hide RetriedAfter;
      ghost var s := st.State();
      ok, events := false, [];
      if ev.id !in st.byRun {
        return;
      }
      ok := !ev.OtherPhase?;
      match ev {
        case Started(id, nodeId, nodeName) =>
          if !st.byRun[id].state.Terminal() {
            events := Touch(id, (r: Run) =>
              if r.state.Terminal() then r else AtNode(StartedBy(r.(state := Running), now), nodeId, nodeName),
              Start(id, nodeId, nodeName, now), ReportPinned(st.byRun[id], ev));
          }
        case InProgress(id, summary) =>
          if st.byRun[id].state.InFlight() {
            events := Touch(id, (r: Run) =>
              if r.state != Running && r.state != Dispatched then r else r.(summary := summary),
              Progress(id, summary), true);
          }
        case Finished(id, state, summary, nodeId, nodeName) =>
          events := IngestVerdict(id, state, summary, nodeId, nodeName, now);
        case OtherPhase(_) =>
      }
      if ok {
        ReportedRun(cfg, s, ev, now, events);
      }
      if ok && AllClean(s) {
        ReportedClean(cfg, s, ev, now, events);
      }
    }

    method IngestVerdict(id: string, state: Option<RunState>, summary: Summary, nodeId: string, nodeName: string, now: int)
      returns (ghost events: seq<Event>)
      requires st.Valid() && id in st.byRun
      requires state.Some? ==> state.value.Terminal() && !state.value.Canceled?
      modifies st
      ensures st.Valid()
      ensures Explains(cfg, inventory, old(st.State()), events, st.State(),
                       ReportPinned(old(st.byRun)[id], Finished(id, state, summary, nodeId, nodeName)))
      ensures Reports(old(st.byRun)[id], Finished(id, state, summary, nodeId, nodeName), now, events)
    {
      hide Explains;
      hide Indexed;
      hide Mirrored;
      hide Reports;
      var verdict := Passed;
      if state.Some? {
        verdict := state.value;
      } else if summary.failed + summary.errors > 0 {
        verdict := Failed;
      }
      ghost var ev := Finished(id, state, summary, nodeId, nodeName);
      ghost var pinned := st.byRun[id].state.InFlight() ==> Pinned(st.byRun[id], nodeId, nodeName);
      ghost var results := RecordResults(id, summary, nodeId, nodeName, now);
      ghost var m := st.State();
      ghost var more := Finish(id, verdict, now);
      ThenVerdict(cfg, inventory, old(st.State()), results, m, more, st.State(), pinned);
      events := results + more;
      VerdictReported(old(st.byRun)[id], ev, now, results, more);
    }

    method RecordResults(id: string, summary: Summary, nodeId: string, nodeName: string, now: int) returns (ghost events: seq<Event>)
      requires st.Valid() && id in st.byRun
      modifies st
      ensures st.Valid() && events == [Results(id, summary, nodeId, nodeName, now)]
      ensures Explains(cfg, inventory, old(st.State()), events, st.State(),
                       old(st.byRun)[id].state.InFlight() ==> Pinned(old(st.byRun)[id], nodeId, nodeName))
      ensures id in st.byRun && st.byRun[id].state == old(st.byRun)[id].state
    {
      ghost var e := Results(id, summary, nodeId, nodeName, now);
      TouchedByResults(st.byRun[id], e);
      events := Touch(id, (r: Run) => AtNode(StartedBy(r.(summary := summary), now), nodeId, nodeName), e,
                      st.byRun[id].state.InFlight() ==> Pinned(st.byRun[id], nodeId, nodeName));
    }

    // --------------------------------------------------------- cancellation

    /** Stop every unfinished run of a regression. */
    method Cancel(g: string, now: int) returns (ok: bool, ghost events: seq<Event>)
      requires st.Valid()
      modifies st
      ensures st.Valid()
      ensures ok <==> g in old(st.byReg)
      ensures Explains(cfg, inventory, old(st.State()), events, st.State(), true)
      ensures forall id <- st.byRun ::
                id in old(st.byRun) && (
                  if old(st.byRun)[id].regressionId == g && old(st.byRun)[id].state !in {Passed, Failed, Errored, Timeout, Canceled} && ok
                  then st.byRun[id] == old(st.byRun)[id].(state := Canceled, finishedAt := Some(now))
                  else st.byRun[id] == old(st.byRun)[id])
      ensures st.byReg == if !ok then old(st.byReg) else
                var reg := old(st.byReg)[g].reg;
                old(st.byReg)[g := old(st.byReg)[g].(reg := reg.(
                  state := RegCanceled,
                  finishedAt := if reg.finishedAt == None then Some(now) else reg.finishedAt))]
    {
      hide Explains;
      hide Mirrored;
      hide Indexed;
      hide CanceledAmong;
      hide Enabled;
      ExplainsNothing(cfg, inventory, st.State(), true);
      ok, events := false, [];
      if g !in st.byReg {
        return;
      }
      ok := true;
      var runs := st.RunsOf(g);
      forall id <- st.byRun { CanceledMeans(st.State(), g, runs, id, now); }
      events := CancelRuns(runs, now);
      ghost var m := st.State();
      var header := st.byReg[g].reg;
      ghost var e := Rollup(g, CanceledHeader(header, now));
      HeaderCancels(cfg, m, g, now);
      ExplainsOne(cfg, inventory, m, e, true);
      var _ := st.UpdateRegression(g, (reg: Regression) => CanceledHeader(reg, now));
      assert st.State() == Apply(m, e);
      ExplainsConcat(cfg, inventory, old(st.State()), events, m, [e], st.State(), true);
      events := events + [e];
    }

    method CancelRuns(runs: seq<Run>, now: int) returns (ghost events: seq<Event>)
      requires st.Valid()
      requires forall r <- runs :: r.id in st.byRun && st.byRun[r.id] == r
      requires forall i, j | 0 <= i < j < |runs| :: runs[i].id != runs[j].id
      modifies st
      ensures st.Valid() && st.byReg == old(st.byReg) && st.byRun.Keys == old(st.byRun).Keys
      ensures Explains(cfg, inventory, old(st.State()), events, st.State(), true)
      ensures forall id <- old(st.byRun) :: st.byRun[id] == CanceledAmong(old(st.byRun)[id], runs, now)
    {
      hide Explains;
      hide Mirrored;
      hide CanceledSoFar;
      events := [];
      ghost var s := st.State();
      ExplainsNothing(cfg, inventory, s, true);
      NoneCanceled(s.runs, runs, now);
      for i := 0 to |runs|
        invariant st.Valid() && st.byReg == s.regs
        invariant Explains(cfg, inventory, s, events, st.State(), true)
        invariant CanceledSoFar(s.runs, st.byRun, runs, i, now)
      {
        var r := runs[i];
        CancelStep(s.runs, st.byRun, runs, i, now);
        if r.state.Terminal() {
          continue;
        }
        ghost var m := st.State();
        ghost var one := CancelOne(r, now);
        ExplainsConcat(cfg, inventory, s, events, m, one, st.State(), true);
        events := events + one;
      }
      AllCanceled(s.runs, st.byRun, runs, now);
    }

    method CancelOne(r: Run, now: int) returns (ghost events: seq<Event>)
      requires st.Valid() && r.id in st.byRun && st.byRun[r.id] == r && !r.state.Terminal()
      modifies st
      ensures st.Valid() && st.byReg == old(st.byReg)
      ensures st.byRun == old(st.byRun)[r.id := r.(state := Canceled, finishedAt := Some(now))]
      ensures Explains(cfg, inventory, old(st.State()), events, st.State(), true)
    {
      RunIsListed(st.State(), r.id);
      events := Touch(r.id, (run: Run) => run.(state := Canceled, finishedAt := Some(now)), Event.Cancel(r.id, now), true);
    }

    /** Cancel the newest attempt of one suite, unless it is done; no retry is queued. */
    method CancelSuite(g: string, suite: string, now: int) returns (ok: bool, ghost events: seq<Event>)
      requires st.Valid()
      modifies st
      ensures st.Valid()
      ensures Explains(cfg, inventory, old(st.State()), events, st.State(), true)
      ensures ok <==> HasOpenSuite(old(st.State()), g, suite)
      ensures if ok then st.byRun == old(CanceledSuite(st.State(), g, suite, now)) else st.State() == old(st.State())
    {
      ok, events := false, [];
      if g !in st.byReg {
        return;
      }
      var runs := st.RunsOf(g);
      var latest := LatestPerSuite(runs);
      if suite !in latest || latest[suite].state.Terminal() {
        return;
      }
      ok := true;
      LatestIsNewest(runs);
      var r := latest[suite];
      ghost var canceled := Touch(r.id, (run: Run) =>
        if run.state.Terminal() then run else run.(state := Canceled, finishedAt := Some(now)), Event.Cancel(r.id, now), true);
      ghost var m := st.State();
      ghost var header := RollUpOne(g, now);
      ExplainsConcat(cfg, inventory, old(st.State()), canceled, m, header, st.State(), true);
      events := canceled + header;
    }

    // --------------------------------------------------------------- rollup

    method RollUpOne(g: string, now: int) returns (ghost events: seq<Event>)
      requires st.Valid() && g in st.byReg
      modifies st
      ensures st.Valid() && st.byRun == old(st.byRun) && st.byToken == old(st.byToken)
      ensures ListsKnownRuns(old(st.State()), g)
      ensures st.byReg == old(st.byReg)[g := old(st.byReg)[g].(
                reg := RolledUp(old(st.byReg)[g].reg, RunsIn(old(st.State()), g), now))]
      ensures Explains(cfg, inventory, old(st.State()), events, st.State(), true)
    {
      ghost var s := st.State();
      var runs := st.RunsOf(g);
      var header := RollUp(st.byReg[g].reg, runs, now);
      events := [Rollup(g, header)];
      HeaderFits(cfg, s, g, runs, now);
      ExplainsOne(cfg, inventory, s, events[0], true);
      var _ := st.UpdateRegression(g, (reg: Regression) => RolledUp(reg, runs, now));
    }

    /** Roll up every regression that has no final state yet. */
    method RollUpAll(now: int) returns (ghost events: seq<Event>)
      requires st.Valid()
      modifies st
      ensures st.Valid() && st.byRun == old(st.byRun) && st.byReg.Keys == old(st.byReg).Keys
      ensures forall g <- st.byReg :: RolledUpTo(old(st.State()), g, st.byReg[g], now)
      ensures forall g <- st.byReg :: ListsKnownRuns(old(st.State()), g) && (
                if old(st.byReg)[g].reg.state in {RegPassed, RegFailed, RegErrored, RegCanceled}
                then st.byReg[g] == old(st.byReg)[g]
                else st.byReg[g] == old(st.byReg)[g].(reg := RolledUp(old(st.byReg)[g].reg, RunsIn(old(st.State()), g), now)))
      ensures Explains(cfg, inventory, old(st.State()), events, st.State(), true)
    {
      hide Explains;
      hide RolledUpTo;
      hide Indexed;
      hide Mirrored;
      events := [];
      ghost var s := st.State();
      ExplainsNothing(cfg, inventory, s, true);
      var rest := st.byReg.Keys;
      while rest != {}
        invariant st.Valid() && st.byRun == s.runs && st.byReg.Keys == s.regs.Keys && rest <= st.byReg.Keys
        invariant forall g <- st.byReg :: if g in rest then st.byReg[g] == s.regs[g] else RolledUpTo(s, g, st.byReg[g], now)
        invariant Explains(cfg, inventory, s, events, st.State(), true)
      {
        var g :| g in rest;
        rest := rest - {g};
        var state := st.byReg[g].reg.state;
        if state == RegPassed || state == RegFailed || state == RegErrored || state == RegCanceled {
          StaysRolledUp(s, g, now);
          continue;
        }
        ghost var m := st.State();
        ghost var one := RollUpOne(g, now);
        ExplainsConcat(cfg, inventory, s, events, m, one, st.State(), true);
        events := events + one;
        IsRolledUp(s, m, g, now);
      }
      forall g <- st.byReg { RolledUpMeans(s, g, st.byReg[g], now); }
    }

    // ----------------------------------------------------------- submission

    /** Accept a regression and queue the first attempt of each suite, unless a
        suite is malformed, misplaced, without its builds or somewhere forbidden;
        then nothing changes. */
    method Submit(g: string, user: string, priority: int, suites: seq<SuiteSpec>, resolves: string -> bool, written: bool, now: int)
      returns (ok: bool, ghost events: seq<Event>)
      requires st.Valid() && (st.reliable ==> written)
      modifies st
      ensures st.Valid()
      ensures ok <==> Acceptable(cfg.cat, user, suites, resolves) && g !in old(st.byReg) && written
      ensures Explains(cfg, inventory, old(st.State()), events, st.State(), true)
      ensures if ok then |events| == 1 && events[0].Submit? && events[0].reg == NewRegression(g, user, priority, suites, now)
              else events == []
      ensures ok ==>
        && g in st.byReg && Registered(st.byReg[g].reg, g, user, priority, suites, now)
        && |events[0].firsts| == |suites| && st.byRun.Keys == old(st.byRun).Keys + Ids(events[0].firsts)
        && (forall id <- old(st.byRun) :: st.byRun[id] == old(st.byRun)[id])
        && forall i | 0 <= i < |suites| ::
             var r := events[0].firsts[i];
             r.id !in old(st.byRun) && r.id in st.byRun && st.byRun[r.id] == r && StartsOut(st.byReg[g].reg, suites[i], 1, now, r)
      ensures !ok ==> st.State() == old(st.State())
    {
      ok, events := false, [];
      var accepted := Check(user, suites, resolves);
      if !accepted || g in st.byReg {
        return;
      }
      var reg := NewRegression(g, user, priority, suites, now);
      var firsts := FirstRuns(reg, now);
      FirstsAreAddable(cfg, st.State(), reg, firsts);
      ghost var s := st.State();
      ok := st.Create(reg, firsts, written);
      if ok {
        events := [Event.Submit(reg, firsts)];
        ExplainsOne(cfg, inventory, s, events[0], true);
        SubmissionStarts(cfg, s, reg, firsts);
      }
    }

    /** Does the submission pass every check made before anything is stored?
        resolves says of each suite whether its builds are found. */
    method Check(user: string, suites: seq<SuiteSpec>, resolves: string -> bool) returns (ok: bool)
      ensures ok <==> Acceptable(cfg.cat, user, suites, resolves)
    {
      if suites == [] {
        return false;
      }
      var seen: set<string> := {};
      for i := 0 to |suites|
        invariant seen == set j | 0 <= j < i :: suites[j].name
        invariant forall j | 0 <= j < i :: suites[j].name != "" && suites[j].pool != ""
        invariant forall j, k | 0 <= j < k < i :: suites[j].name != suites[k].name
      {
        if suites[i].name == "" || suites[i].name in seen || suites[i].pool == "" {
          return false;
        }
        seen := seen + {suites[i].name};
      }
      if Forbidden(cfg.cat, user, EVERYWHERE) {
        return false;
      }
      for i := 0 to |suites|
        invariant forall j | 0 <= j < i :: resolves(suites[j].name)
      {
        if !resolves(suites[i].name) {
          return false;
        }
      }
      for i := 0 to |suites|
        invariant forall j | 0 <= j < i :: MayRun(cfg.cat, user, suites[j])
      {
        var su := suites[i];
        var pool := cfg.cat.Pool(su.pool);
        if pool.None? {
          return false;
        }
        if su.runtime != Unset && su.runtime != pool.value.runtime {
          return false;
        }
        if Forbidden(cfg.cat, user, Scope(InPool, su.pool)) {
          return false;
        }
      }
      return true;
    }

    method FirstRuns(reg: Regression, now: int) returns (firsts: seq<Run>)
      ensures FirstAttempts(cfg, st.State(), reg, firsts)
      ensures forall i | 0 <= i < |firsts| :: StartsOut(reg, reg.suites[i], 1, now, firsts[i])
    {
      firsts := [];
      var ids, tokens := st.byRun.Keys, st.byToken.Keys;
      for i := 0 to |reg.suites|
        invariant |firsts| == i
        invariant forall j | 0 <= j < i :: StartsOut(reg, reg.suites[j], 1, now, firsts[j])
        invariant ids == st.byRun.Keys + Ids(firsts) && tokens == st.byToken.Keys + Tokens(firsts)
        invariant forall j | 0 <= j < i ::
                    && FreshRun(st.State(), firsts[j])
                    && firsts[j] == NewRun(cfg, reg, reg.suites[j], 1, firsts[j].id, firsts[j].token, firsts[j].queuedAt)
        invariant forall j, k | 0 <= j < k < i :: firsts[j].id != firsts[k].id && firsts[j].token != firsts[k].token
      {
        var id := Unused(ids);
        var token := Unused(tokens);
        var r := NewRun(cfg, reg, reg.suites[i], 1, id, token, now);
        forall j | 0 <= j < i ensures firsts[j].id != id && firsts[j].token != token {
          assert firsts[j].id in Ids(firsts) && firsts[j].token in Tokens(firsts);
        }
        assert Ids(firsts + [r]) == Ids(firsts) + {id};
        assert Tokens(firsts + [r]) == Tokens(firsts) + {token};
        firsts := firsts + [r];
        ids, tokens := ids + {id}, tokens + {token};
      }
    }

    // ------------------------------------------------------------ admission

    /** Dispatch queued runs while the ledger allows, in greedy order. Returns
        the attempts made, and with them the queue they were made from, the
        runs in flight before and after as the ledger listed them, and the
        events they caused. */
    method Admit(accepts: string -> bool, now: int)
      returns (attempts: seq<Attempt>, ghost queue: seq<Run>, ghost before: seq<string>, ghost after: seq<string>, ghost events: seq<Event>)
      requires st.Valid() && UniqueIds(inventory)
      modifies st
      ensures st.Valid()
      ensures Explains(cfg, inventory, old(st.State()), events, st.State(), true)
      ensures AllClean(st.State()) <==> AllClean(old(st.State()))
      ensures Ordered(queue) && forall r :: r in queue <==> r.state.Queued? && r.id in old(st.byRun) && old(st.byRun)[r.id] == r
      ensures Lists(HoldingsOf(old(st.State())), before) && Lists(HoldingsOf(st.State()), after)
      ensures Complete(LedgerOf(cfg.cat, inventory, HoldingsOf(old(st.State())), before), queue, attempts)
      ensures LedgerOf(cfg.cat, inventory, HoldingsOf(st.State()), after)
           == Replay(LedgerOf(cfg.cat, inventory, HoldingsOf(old(st.State())), before), queue, attempts)
      ensures forall i: nat | i < |queue| && !Attempted(attempts, i) ::
                queue[i].id in st.byRun && st.byRun[queue[i].id] == queue[i]
    {
      var all := st.AllRuns();
      var l := new Ledger(cfg.cat, inventory, all);
      var ordered := QueueOf(all);
      queue, before := ordered, InFlightIds(all);
      SnapshotLedger(cfg.cat, inventory, st.State(), all);
      AdmitStarts(cfg, inventory, st.State(), l.State(), queue, Entries(ordered), before);
      ghost var s := st.State();
      attempts, after, events := AdmitAll(l, Entries(ordered), accepts, now, l.State(), queue, before);
      PlainHistory(cfg, s, events);
    }

    method AdmitAll(l: Ledger, entries: seq<Option<Run>>, accepts: string -> bool, now: int,
                    ghost l0: LedgerState, ghost queue: seq<Run>, ghost before: seq<string>)
      returns (attempts: seq<Attempt>, ghost after: seq<string>, ghost events: seq<Event>)
      requires st.Valid() && l.State().Valid() && l.cat == cfg.cat
      requires Admitting(cfg, inventory, st.State(), l.State(), l0, queue, entries, [], before)
      modifies st, l
      ensures st.Valid()
      ensures Explains(cfg, inventory, old(st.State()), events, st.State(), true)
      ensures forall e <- events :: Plain(e)
      ensures exists queued :: Admitting(cfg, inventory, st.State(), l.State(), l0, queue, queued, attempts, after)
      ensures Complete(l0, queue, attempts)
    {
      ghost var s := st.State();
      var queued := entries;
      attempts, after, events := [], before, [];
      while true
        invariant st.Valid() && l.State().Valid() && l.cat == cfg.cat
        invariant Explains(cfg, inventory, s, events, st.State(), true)
        invariant forall e <- events :: Plain(e)
        invariant Admitting(cfg, inventory, st.State(), l.State(), l0, queue, queued, attempts, after)
        decreases LeftIn(queued)
      {
        var best := PickNext(l, queued, queue, attempts);
        if best < 0 {
          assert Admitting(cfg, inventory, st.State(), l.State(), l0, queue, queued, attempts, after);
          assert forall i :: !Open(Replay(l0, queue, attempts), queue, attempts, i);
          return;
        }
        var r := queued[best].value;
        ghost var m := st.State();
        var attempt;
        ghost var more;
        attempt, more := AttemptOne(l, r, best, accepts, now, l0, queue, queued, attempts, after);
        ExplainsConcat(cfg, inventory, s, events, m, more, st.State(), true);
        events := events + more;
        FewerLeft(queued, best);
        queued := queued[best := None];
        attempts := attempts + [attempt];
        after := if attempt.outcome.Placed? then after + [r.id] else after;
      }
    }

    /** Place one run on its least loaded candidate node, dispatch it there, and
        charge the ledger if that worked. */
    method AttemptOne(l: Ledger, r: Run, best: nat, accepts: string -> bool, now: int, ghost l0: LedgerState, ghost queue: seq<Run>,
                      ghost queued: seq<Option<Run>>, ghost attempts: seq<Attempt>, ghost ids: seq<string>)
      returns (a: Attempt, ghost events: seq<Event>)
      requires st.Valid() && l.State().Valid() && l.cat == cfg.cat
      requires Admitting(cfg, inventory, st.State(), l.State(), l0, queue, queued, attempts, ids)
      requires Open(l.State(), queue, attempts, best) && queue[best] == r
      requires forall j | Open(l.State(), queue, attempts, j) :: Preferred(l.State(), queue, best, j)
      modifies st, l
      ensures st.Valid() && l.State().Valid()
      ensures a.index == best
      ensures Explains(cfg, inventory, old(st.State()), events, st.State(), true)
      ensures forall e <- events :: Plain(e)
      ensures Admitting(cfg, inventory, st.State(), l.State(), l0, queue, queued[best := None], attempts + [a],
                        if a.outcome.Placed? then ids + [r.id] else ids)
    {
      hide Explains;
      hide Indexed;
      hide Mirrored;
      hide Follows;
      hide Ordered;
      hide StruckOut;
      var pool, node := ChooseNode(l, r);
      var pinned := r.(nodeId := node, nodeName := l.nodes[node].info.name);
      ghost var m, was := st.State(), l.State();
      GreedyPick(cfg, inventory, m, was, queue, attempts, best, node, ids);
      var outcome;
      outcome, events := Dispatch(pinned, pool, accepts, now);
      a := Attempt(best, node, outcome);
      AdmitSteps(cfg, inventory, m, st.State(), was, l0, queue, queued, attempts, ids, a, now);
      ChargeIfPlaced(l, pinned, outcome);
    }

    method ChooseNode(l: Ledger, r: Run) returns (pool: Pool, node: string)
      requires l.State().Valid() && Eligible(l.State(), r)
      ensures l.cat.Pool(r.pool) == Some(pool) && LeastLoaded(l.State(), pool, r, node)
    {
      pool := l.cat.Pool(r.pool).value;
      ghost var ls := l.State();
      ghost var some :| Candidate(ls, pool, r, some);
      var best, _ := l.Pick(pool, r);
      assert l.State() == ls;
      node := best.value;
    }

    method ChargeIfPlaced(l: Ledger, r: Run, outcome: Outcome)
      requires st.Valid() && l.State().Valid()
      modifies l
      ensures st.Valid() && st.State() == old(st.State())
      ensures l.State().Valid()
      ensures l.State() == if outcome.Placed? then Charge(old(l.State()), ClaimOf(r)) else old(l.State())
    {
      if outcome.Placed? {
        l.Charge(r);
      }
    }

    /** One turn of the control loop: reconcile, admit, roll up. If the polls
        name the nodes the runs were pinned to, a safe store stays safe. When it
        ends, no run that was queued and not attempted could start, by the ledger
        of the store as it is, and every header is that of its runs. */
    method Tick(poll: string -> Status, accepts: string -> bool, now: int)
      returns (attempts: seq<Attempt>, ghost queue: seq<Run>, ghost after: seq<string>, ghost events: seq<Event>)
      requires st.Valid() && UniqueIds(inventory)
      modifies st
      ensures st.Valid()
      ensures Explains(cfg, inventory, old(st.State()), events, st.State(), AllPinned(old(st.State()), poll))
      ensures ValidRules(cfg.cat) && AllPinned(old(st.State()), poll) && WithinLimits(cfg.cat, inventory, old(st.State())) ==>
                WithinLimits(cfg.cat, inventory, st.State())
      ensures AllClean(old(st.State())) ==>
                (AllClean(st.State()) <==> forall id <- old(st.byRun) :: !PassesFailures(cfg, poll, now, old(st.byRun)[id]))
      ensures Ordered(queue) && forall id <- old(st.byRun) :: old(st.byRun)[id].state.Queued? ==> old(st.byRun)[id] in queue
      ensures Lists(HoldingsOf(st.State()), after)
      ensures forall i :: !Open(LedgerOf(cfg.cat, inventory, HoldingsOf(st.State()), after), queue, attempts, i)
      ensures ValidRules(cfg.cat) ==> NoneLeftOut(cfg.cat, inventory, st.State(), queue, attempts)
      ensures forall g <- st.byReg :: HeaderUpToDate(st.State(), g, now)
    {
      hide NoneLeftOut;
      hide Explains;
      hide WithinLimits;
      hide Clean;
      hide PassesFailures;
      hide Complete;
      hide RolledUpTo;
      hide HeaderUpToDate;
      hide Indexed;
      hide Mirrored;
      hide Open;
      hide LedgerOf;
      ghost var s, pinned := st.State(), AllPinned(st.State(), poll);
      events := Reconcile(poll, now);
      ghost var m := st.State();
      ghost var admitted, before;
      attempts, queue, before, after, admitted := Admit(accepts, now);
      ghost var n := st.State();
      QueuedWait(cfg, s, m, queue, poll, now);
      PinnedWeakerThan(cfg, inventory, m, admitted, n, pinned, true);
      ExplainsConcat(cfg, inventory, s, events, m, admitted, n, pinned);
      NothingOpen(LedgerOf(cfg.cat, inventory, HoldingsOf(m), before), queue, attempts);
      ghost var headers := RollUpAll(now);
      SameHoldingsAs(n, st.State());
      HeadersUpToDate(n, st.State(), now);
      PinnedWeakerThan(cfg, inventory, n, headers, st.State(), pinned, true);
      ExplainsConcat(cfg, inventory, s, events + admitted, n, headers, st.State(), pinned);
      events := events + admitted + headers;
      ExplainedIsSafe(cfg, inventory, s, events, st.State(), pinned);
      if ValidRules(cfg.cat) {
        NoneIsLeftOut(cfg.cat, inventory, st.State(), after, queue, attempts);
      }
    }

    /** Hand the run to its node: no spec, no dispatch; and the backend may refuse. */
    method Dispatch(r: Run, pool: Pool, accepts: string -> bool, now: int) returns (outcome: Outcome, ghost events: seq<Event>)
      requires st.Valid() && r.id in st.byRun && st.byRun[r.id].state.Queued?
      requires CanPlace(cfg.cat, inventory, HoldingsOf(st.State()), st.byRun[r.id], r.nodeId, r.nodeName)
      modifies st
      ensures st.Valid()
      ensures Explains(cfg, inventory, old(st.State()), events, st.State(), true)
      ensures Handed(old(st.State()), st.State(), r, outcome, now)
      ensures forall e <- events :: Plain(e)
      ensures outcome.NoSpec? <==> r.spec.command == [] && pool.command == []
      ensures !outcome.NoSpec? ==> (outcome.Placed? <==> accepts(r.id))
      ensures r.id in st.byRun
      ensures outcome.Placed? ==>
        st.byRun[r.id] == old(st.byRun)[r.id].(state := Dispatched, dispatchedAt := Some(now), nodeId := r.nodeId, nodeName := r.nodeName)
      ensures outcome.Refused? ==> st.State() == old(st.State())
      ensures outcome.NoSpec? ==> st.byRun[r.id] == old(st.byRun)[r.id].(state := Errored, finishedAt := Some(now))
    {
      hide CanPlace;
      hide Mirrored;
      hide Indexed;
      hide Explains;
      hide Candidate;
      events := [];
      ExplainsNothing(cfg, inventory, st.State(), true);
      var command := r.spec.command;
      if command == [] {
        command := pool.command;
      }
      if command == [] {
        outcome := NoSpec;
        events := Finish(r.id, Errored, now);
        return;
      }
      if !accepts(r.id) {
        outcome := Refused;
        return;
      }
      outcome := Outcome.Placed;
      events := Touch(r.id, (run: Run) => Lifecycle.Placed(run, r.nodeId, r.nodeName, now),
                      Place(r.id, r.nodeId, r.nodeName, now), true);
    }
  }

  /** The header is final, or what its runs make of an earlier one. */
  ghost predicate HeaderUpToDate(s: StoreState, g: string, now: int) {
    ListsKnownRuns(s, g)
    && (s.regs[g].reg.state in {RegPassed, RegFailed, RegErrored, RegCanceled} || exists reg :: s.regs[g].reg == RolledUp(reg, RunsIn(s, g), now))
  }

  lemma HeadersUpToDate(s: StoreState, s': StoreState, now: int)
    requires s'.runs == s.runs && forall g <- s'.regs :: RolledUpTo(s, g, s'.regs[g], now)
    ensures forall g <- s'.regs :: HeaderUpToDate(s', g, now)
  {
    forall g <- s'.regs ensures HeaderUpToDate(s', g, now) {
      assert RolledUpTo(s, g, s'.regs[g], now);
      assert RunsIn(s', g) == RunsIn(s, g);
    }
  }

  /** Reconciling leaves queued runs alone, so admission finds them. */
  lemma QueuedWait(cfg: Config, s: StoreState, m: StoreState, queue: seq<Run>, poll: string -> Status, now: int)
    requires Indexed(s) && forall id <- s.runs :: id in m.runs && m.runs[id] == Reconciled(cfg, poll, now, s.runs[id])
    requires forall r :: r in queue <==> r.state.Queued? && r.id in m.runs && m.runs[r.id] == r
    ensures forall id <- s.runs :: s.runs[id].state.Queued? ==> s.runs[id] in queue
  {
  }

  lemma NothingOpen(l: LedgerState, queue: seq<Run>, attempts: seq<Attempt>)
    requires Complete(l, queue, attempts)
    ensures forall i :: !Open(Replay(l, queue, attempts), queue, attempts, i)
  {
  }

  /** An entry left over has no worker that suits it but for a full rule, over
      the runs the store has now. */
  lemma NothingCouldStart(cat: Catalog, inventory: seq<NodeInfo>, s: StoreState, ids: seq<string>, queue: seq<Run>, attempts: seq<Attempt>,
                          i: nat, n: NodeInfo)
    requires ValidRules(cat) && UniqueIds(inventory) && Lists(HoldingsOf(s), ids) && n in inventory
    requires i < |queue| && !Attempted(attempts, i) && !Open(LedgerOf(cat, inventory, HoldingsOf(s), ids), queue, attempts, i)
    requires cat.Pool(queue[i].pool).Some? && Suits(cat, n, |RunsOnNode(s, n.id)|, cat.Pool(queue[i].pool).value, queue[i])
    ensures exists rule :: FullFor(cat, s, rule, queue[i].(nodeName := n.name))
  {
    hide HoldingsOf;
    hide RunsOnNode;
    hide Suits;
    hide FullFor;
    hide LedgerOf;
    hide Blocked;
    hide Fits;
    var l := LedgerOf(cat, inventory, HoldingsOf(s), ids);
    LedgerCountsHoldings(cat, inventory, HoldingsOf(s), ids);
    CandidateMeans(cat, inventory, s, ids, cat.Pool(queue[i].pool).value, queue[i], n);
    if Candidate(l, cat.Pool(queue[i].pool).value, queue[i], n.id) {
      BlockedBeforehand(l, queue[i], l.nodes[n.id].info.name);
    }
  }

  /** No entry left over could have started. */
  ghost predicate NoneLeftOut(cat: Catalog, inventory: seq<NodeInfo>, s: StoreState, queue: seq<Run>, attempts: seq<Attempt>) {
    forall i: nat, n | i < |queue| && !Attempted(attempts, i) && n in inventory && cat.Pool(queue[i].pool).Some?
                       && Suits(cat, n, |RunsOnNode(s, n.id)|, cat.Pool(queue[i].pool).value, queue[i]) ::
      exists rule :: FullFor(cat, s, rule, queue[i].(nodeName := n.name))
  }

  lemma NoneIsLeftOut(cat: Catalog, inventory: seq<NodeInfo>, s: StoreState, ids: seq<string>, queue: seq<Run>, attempts: seq<Attempt>)
    requires ValidRules(cat) && UniqueIds(inventory) && Lists(HoldingsOf(s), ids)
    requires forall i :: !Open(LedgerOf(cat, inventory, HoldingsOf(s), ids), queue, attempts, i)
    ensures NoneLeftOut(cat, inventory, s, queue, attempts)
  {
    hide HoldingsOf;
    hide RunsOnNode;
    hide Suits;
    hide FullFor;
    hide LedgerOf;
    hide Open;
    hide Attempted;
    forall i: nat, n | i < |queue| && !Attempted(attempts, i) && n in inventory && cat.Pool(queue[i].pool).Some?
                       && Suits(cat, n, |RunsOnNode(s, n.id)|, cat.Pool(queue[i].pool).value, queue[i])
      ensures exists rule :: FullFor(cat, s, rule, queue[i].(nodeName := n.name))
    {
      NothingCouldStart(cat, inventory, s, ids, queue, attempts, i, n);
    }
  }

  lemma SameHoldingsAs(s: StoreState, s': StoreState)
    requires s'.runs == s.runs
    ensures HoldingsOf(s') == HoldingsOf(s)
  {
  }

  lemma ExplainedIsSafe(cfg: Config, inventory: seq<NodeInfo>, s: StoreState, es: seq<Event>, s': StoreState, pinned: bool)
    requires Indexed(s) && UniqueIds(inventory) && Explains(cfg, inventory, s, es, s', pinned)
    ensures ValidRules(cfg.cat) && pinned && WithinLimits(cfg.cat, inventory, s) ==> WithinLimits(cfg.cat, inventory, s')
  {
    if ValidRules(cfg.cat) && pinned && WithinLimits(cfg.cat, inventory, s) {
      HistoryIsSafe(cfg, inventory, s, es);
    }
  }

  function Entries(queue: seq<Run>): seq<Option<Run>> {
    seq(|queue|, i requires 0 <= i < |queue| => Some(queue[i]))
  }

  function InFlightIds(rs: seq<Run>): seq<string> {
    if rs == [] then []
    else
      var ids, r := InFlightIds(rs[..|rs| - 1]), rs[|rs| - 1];
      if r.state.InFlight() then ids + [r.id] else ids
  }

  lemma {:induction false} InFlightIdsAre(rs: seq<Run>)
    ensures forall r <- rs | r.state.InFlight() :: r.id in InFlightIds(rs)
    ensures forall id <- InFlightIds(rs) :: exists r <- rs :: r.id == id && r.state.InFlight()
  {
    if rs != [] {
      var rest, r := rs[..|rs| - 1], rs[|rs| - 1];
      InFlightIdsAre(rest);
      assert rs == rest + [r];
      forall id <- InFlightIds(rs) ensures exists q <- rs :: q.id == id && q.state.InFlight() {
        if id in InFlightIds(rest) {
          var q :| q in rest && q.id == id && q.state.InFlight();
          assert q in rs;
        } else {
          assert r in rs;
        }
      }
    }
  }

  lemma {:induction false} InFlightIdsDiffer(rs: seq<Run>)
    requires forall i, j | 0 <= i < j < |rs| :: rs[i].id != rs[j].id
    ensures Distinct(InFlightIds(rs))
  {
    if rs != [] {
      var rest, r := rs[..|rs| - 1], rs[|rs| - 1];
      InFlightIdsDiffer(rest);
      InFlightIdsAre(rest);
      forall id <- InFlightIds(rest) ensures id != r.id {
        var q :| q in rest && q.id == id;
        var i :| 0 <= i < |rest| && rest[i] == q;
        assert rs[i].id != rs[|rs| - 1].id;
      }
      assert forall i | 0 <= i < |InFlightIds(rest)| :: InFlightIds(rest)[i] in InFlightIds(rest);
    }
  }

  lemma {:induction false} ClaimsInOrder(rs: seq<Run>, h: Holdings)
    requires forall r <- rs | r.state.InFlight() :: r.id in h && h[r.id] == ClaimOf(r)
    ensures forall id <- InFlightIds(rs) :: id in h
    ensures ClaimsAt(h, InFlightIds(rs)) == ClaimsOf(rs)
  {
    if rs != [] {
      var rest, r := rs[..|rs| - 1], rs[|rs| - 1];
      ClaimsInOrder(rest, h);
      assert rs == rest + [r];
      if r.state.InFlight() {
        ClaimsAtAppend(h, InFlightIds(rest), r.id);
      }
    }
  }

  /** The ledger built from a snapshot is that of the store's holdings. */
  lemma SnapshotLedger(cat: Catalog, inventory: seq<NodeInfo>, s: StoreState, all: seq<Run>)
    requires Snapshot(s, all) && RunsOk(s)
    ensures Lists(HoldingsOf(s), InFlightIds(all))
    ensures LedgerOf(cat, inventory, HoldingsOf(s), InFlightIds(all)) == ChargeAll(Idle(cat, inventory), ClaimsOf(all))
  {
    var h := HoldingsOf(s);
    InFlightIdsAre(all);
    InFlightIdsDiffer(all);
    ClaimsInOrder(all, h);
    forall id | id in h ensures id in InFlightIds(all) {
      assert s.runs[id] in all;
    }
  }

  /** What a dispatch does to the store. */
  ghost predicate Handed(s: StoreState, s': StoreState, r: Run, outcome: Outcome, now: int) {
    && r.id in s.runs
    && match outcome
       case Placed => s' == PutRun(s, Lifecycle.Placed(s.runs[r.id], r.nodeId, r.nodeName, now))
       case Refused => s' == s
       case NoSpec => TouchesOnly(s, s', r.id) && r.id in s'.runs && s'.runs[r.id].state.Terminal()
  }

  /** In the middle of admission: the attempts so far were greedy; the ledger is
      theirs, and that of the store as it is now; and what was not attempted is untouched. */
  ghost predicate Admitting(cfg: Config, inventory: seq<NodeInfo>, s: StoreState, l: LedgerState, l0: LedgerState, queue: seq<Run>,
                            queued: seq<Option<Run>>, attempts: seq<Attempt>, ids: seq<string>) {
    && Ordered(queue) && (forall i, j | 0 <= i < j < |queue| :: queue[i].id != queue[j].id)
    && Follows(l0, queue, attempts) && l == Replay(l0, queue, attempts)
    && StruckOut(queued, queue, attempts)
    && Lists(HoldingsOf(s), ids) && l == LedgerOf(cfg.cat, inventory, HoldingsOf(s), ids)
    && (forall i: nat | i < |queue| && !Attempted(attempts, i) ::
          queue[i].id in s.runs && s.runs[queue[i].id] == queue[i] && queue[i].state.Queued?)
  }

  lemma AdmitStarts(cfg: Config, inventory: seq<NodeInfo>, s: StoreState, l0: LedgerState, queue: seq<Run>,
                    queued: seq<Option<Run>>, ids: seq<string>)
    requires Ordered(queue) && (forall i, j | 0 <= i < j < |queue| :: queue[i].id != queue[j].id)
    requires queued == Entries(queue)
    requires Lists(HoldingsOf(s), ids) && l0 == LedgerOf(cfg.cat, inventory, HoldingsOf(s), ids)
    requires forall r <- queue :: r.id in s.runs && s.runs[r.id] == r && r.state.Queued?
    ensures Admitting(cfg, inventory, s, l0, l0, queue, queued, [], ids)
  {
  }

  /** The preferred open entry, on its least loaded candidate, is a greedy and placeable attempt. */
  lemma GreedyPick(cfg: Config, inventory: seq<NodeInfo>, s: StoreState, l: LedgerState, queue: seq<Run>, attempts: seq<Attempt>,
                   best: nat, node: string, ids: seq<string>)
    requires Lists(HoldingsOf(s), ids) && l == LedgerOf(cfg.cat, inventory, HoldingsOf(s), ids) && l.cat == cfg.cat
    requires Open(l, queue, attempts, best)
    requires forall j | Open(l, queue, attempts, j) :: Preferred(l, queue, best, j)
    requires LeastLoaded(l, cfg.cat.Pool(queue[best].pool).value, queue[best], node)
    ensures forall outcome :: Greedy(l, queue, attempts, Attempt(best, node, outcome))
    ensures CanPlace(cfg.cat, inventory, HoldingsOf(s), queue[best], node, l.nodes[node].info.name)
  {
    assert Candidate(l, cfg.cat.Pool(queue[best].pool).value, queue[best], node);
  }

  lemma HoldingsAfterDispatch(s: StoreState, s': StoreState, r: Run, outcome: Outcome, now: int)
    requires Handed(s, s', r, outcome, now) && s.runs[r.id].id == r.id && s.runs[r.id].state.Queued?
    requires s.runs[r.id].user == r.user && s.runs[r.id].pool == r.pool
    ensures HoldingsOf(s') == if outcome.Placed? then HoldingsOf(s)[r.id := ClaimOf(r)] else HoldingsOf(s)
  {
    if outcome.Placed? {
      var e := Place(r.id, r.nodeId, r.nodeName, now);
      TouchedHoldings(s, e);
      assert Touched(s.runs[r.id], e) == Lifecycle.Placed(s.runs[r.id], r.nodeId, r.nodeName, now);
      assert ClaimOf(Touched(s.runs[r.id], e)) == ClaimOf(r);
      assert HoldingsOf(s') == HoldingsOf(s)[r.id := ClaimOf(r)];
    } else if outcome.NoSpec? {
      UntouchedHoldings(s, s', r.id);
      assert HoldingsOf(s') == HoldingsOf(s);
    } else {
      assert s' == s;
    }
  }

  lemma UntouchedHoldings(s: StoreState, s': StoreState, id: string)
    requires TouchesOnly(s, s', id) && id in s.runs && !s.runs[id].state.InFlight() && !s'.runs[id].state.InFlight()
    ensures HoldingsOf(s') == HoldingsOf(s)
  {
    var h, h' := HoldingsOf(s), HoldingsOf(s');
    assert forall x :: x in h' <==> x in h;
    assert forall x <- h :: h'[x] == h[x];
  }

  /** How many entries are not struck out. */
  function LeftIn(queued: seq<Option<Run>>): nat {
    CountIf(queued, (o: Option<Run>) => o.Some?)
  }

  lemma FewerLeft(queued: seq<Option<Run>>, i: nat)
    requires i < |queued| && queued[i].Some?
    ensures LeftIn(queued[i := None]) < LeftIn(queued)
  {
    var p := (o: Option<Run>) => o.Some?;
    assert queued == queued[..i] + [queued[i]] + queued[i + 1..];
    assert queued[i := None] == queued[..i] + [None] + queued[i + 1..];
    CountInsert(queued[..i], queued[i], queued[i + 1..], p);
    CountInsert(queued[..i], None, queued[i + 1..], p);
  }

  lemma AttemptedAppend(attempts: seq<Attempt>, a: Attempt, i: nat)
    ensures Attempted(attempts + [a], i) <==> Attempted(attempts, i) || i == a.index
  {
    assert a in attempts + [a];
    if Attempted(attempts, i) {
      var b :| b in attempts && b.index == i;
      assert b in attempts + [a];
    }
  }

  /** The ledger charged for the attempt is that of the store after it. */
  lemma LedgerKeepsUp(cfg: Config, inventory: seq<NodeInfo>, s: StoreState, s': StoreState, l: LedgerState, queue: seq<Run>,
                      ids: seq<string>, a: Attempt, now: int)
    requires Lists(HoldingsOf(s), ids) && l == LedgerOf(cfg.cat, inventory, HoldingsOf(s), ids)
    requires a.index < |queue| && a.node in l.nodes
    requires var r := queue[a.index]; r.id in s.runs && s.runs[r.id] == r && r.state.Queued?
    requires Handed(s, s', On(l, queue[a.index], a.node), a.outcome, now)
    ensures var ids' := if a.outcome.Placed? then ids + [queue[a.index].id] else ids;
      Lists(HoldingsOf(s'), ids') && After(l, queue, a) == LedgerOf(cfg.cat, inventory, HoldingsOf(s'), ids')
  {
    hide LedgerOf;
    hide Handed;
    hide NodeName;
    var r := On(l, queue[a.index], a.node);
    HoldingsAfterDispatch(s, s', r, a.outcome, now);
    if a.outcome.Placed? {
      assert r.id !in HoldingsOf(s);
      LedgerFollows(cfg.cat, inventory, HoldingsOf(s), ids, r.id, ClaimOf(r));
    }
  }

  /** Entries not attempted yet are as they were. */
  lemma OthersWait(s: StoreState, s': StoreState, r: Run, queue: seq<Run>, attempts: seq<Attempt>, a: Attempt, now: int)
    requires forall i, j | 0 <= i < j < |queue| :: queue[i].id != queue[j].id
    requires a.index < |queue| && r.id == queue[a.index].id && Handed(s, s', r, a.outcome, now)
    requires forall i: nat | i < |queue| && !Attempted(attempts, i) ::
               queue[i].id in s.runs && s.runs[queue[i].id] == queue[i] && queue[i].state.Queued?
    requires r.id in s.runs && s.runs[r.id].id == r.id
    ensures forall i: nat | i < |queue| && !Attempted(attempts + [a], i) ::
              queue[i].id in s'.runs && s'.runs[queue[i].id] == queue[i] && queue[i].state.Queued?
  {
    forall i: nat | i < |queue| && !Attempted(attempts + [a], i)
      ensures queue[i].id in s'.runs && s'.runs[queue[i].id] == queue[i] && queue[i].state.Queued?
    {
      AttemptedAppend(attempts, a, i);
      assert queue[i].id != queue[a.index].id;
    }
  }

  lemma StruckNext(queued: seq<Option<Run>>, queue: seq<Run>, attempts: seq<Attempt>, a: Attempt)
    requires StruckOut(queued, queue, attempts) && a.index < |queue|
    ensures StruckOut(queued[a.index := None], queue, attempts + [a])
  {
    forall i: nat ensures Attempted(attempts + [a], i) <==> Attempted(attempts, i) || i == a.index {
      AttemptedAppend(attempts, a, i);
    }
  }

  lemma AdmitSteps(cfg: Config, inventory: seq<NodeInfo>, s: StoreState, s': StoreState, l: LedgerState, l0: LedgerState, queue: seq<Run>,
                   queued: seq<Option<Run>>, attempts: seq<Attempt>, ids: seq<string>, a: Attempt, now: int)
    requires Admitting(cfg, inventory, s, l, l0, queue, queued, attempts, ids)
    requires Greedy(l, queue, attempts, a)
    requires Handed(s, s', On(l, queue[a.index], a.node), a.outcome, now)
    ensures Admitting(cfg, inventory, s', After(l, queue, a), l0, queue, queued[a.index := None], attempts + [a],
                      if a.outcome.Placed? then ids + [queue[a.index].id] else ids)
  {
    hide LedgerOf;
    hide Follows;
    hide HoldingsOf;
    hide Handed;
    hide StruckOut;
    hide Preferred;
    hide Ordered;
    hide Lists;
    FollowsAppend(l0, queue, attempts, a);
    LedgerKeepsUp(cfg, inventory, s, s', l, queue, ids, a, now);
    StruckNext(queued, queue, attempts, a);
    OthersWait(s, s', On(l, queue[a.index], a.node), queue, attempts, a, now);
  }

  function NewRegression(g: string, user: string, priority: int, suites: seq<SuiteSpec>, now: int): Regression {
    Regression(g, user, priority, RegPending, now, None, None, suites,
               NO_TOTALS.(suites := |suites|, suitesQueued := |suites|))
  }

  /** The header of a submission just accepted. */
  predicate Registered(reg: Regression, g: string, user: string, priority: int, suites: seq<SuiteSpec>, now: int) {
    && reg.id == g && reg.user == user && reg.priority == priority && reg.suites == suites
    && reg.state == RegPending && reg.submittedAt == now && reg.startedAt == None && reg.finishedAt == None
    && reg.totals.suites == |suites| && reg.totals.suitesQueued == |suites|
  }

  lemma SubmissionStarts(cfg: Config, s: StoreState, reg: Regression, firsts: seq<Run>)
    requires Indexed(s) && reg.id !in s.regs && DistinctSuites(reg.suites) && FirstAttempts(cfg, s, reg, firsts)
    ensures var s' := AddRuns(AddRegression(s, reg), firsts);
      && s'.runs.Keys == s.runs.Keys + Ids(firsts)
      && (forall id <- s.runs :: s'.runs[id] == s.runs[id])
      && (forall i | 0 <= i < |firsts| :: firsts[i].id !in s.runs && s'.runs[firsts[i].id] == firsts[i])
      && reg.id in s'.regs && s'.regs[reg.id].reg == reg
  {
    hide RecordsOk;
    hide RunsOk;
    hide TokensOk;
    hide ExtendsTokens;
    SubmitKeepsIndexed(cfg, s, reg, firsts);
    assert forall i | 0 <= i < |firsts| :: firsts[i] in firsts;
  }

  /** A rule gives the user no slot in the scope. */
  predicate Forbidden(cat: Catalog, user: string, scope: Scope) {
    var cap := UserCap(cat, user, scope);
    cap.Some? && cap.value.maxSlots == 0
  }

  /** The suite's pool exists, provides the runtime asked for, and is open to the user. */
  predicate MayRun(cat: Catalog, user: string, su: SuiteSpec) {
    && cat.Pool(su.pool).Some?
    && (su.runtime.Unset? || su.runtime == cat.Pool(su.pool).value.runtime)
    && !Forbidden(cat, user, Scope(InPool, su.pool))
  }

  /** The submission is well formed, its builds are found, and the user may run each of its suites. */
  ghost predicate Acceptable(cat: Catalog, user: string, suites: seq<SuiteSpec>, resolves: string -> bool) {
    && suites != []
    && (forall i, j | 0 <= i < j < |suites| :: suites[i].name != suites[j].name)
    && (UserCap(cat, user, Scope(Anywhere, "")).Some? ==> UserCap(cat, user, Scope(Anywhere, "")).value.maxSlots != 0)
    && (forall su <- suites ::
          && su.name != "" && su.pool != "" && resolves(su.name)
          && cat.Pool(su.pool).Some?
          && (su.runtime == Unset || su.runtime == cat.Pool(su.pool).value.runtime)
          && (UserCap(cat, user, Scope(InPool, su.pool)).Some? ==> UserCap(cat, user, Scope(InPool, su.pool)).value.maxSlots != 0))
  }

  lemma FirstsAreAddable(cfg: Config, s: StoreState, reg: Regression, firsts: seq<Run>)
    requires FirstAttempts(cfg, s, reg, firsts)
    ensures Addable(AddRegression(s, reg), reg.id, firsts)
  {
    forall r <- firsts ensures r.spec in reg.suites {
      var i :| 0 <= i < |firsts| && firsts[i] == r;
      assert r.spec == reg.suites[i];
    }
  }

  /** The suite's newest attempt exists and is not done. */
  ghost predicate HasOpenSuite(s: StoreState, g: string, suite: string) {
    && ListsKnownRuns(s, g)
    && suite in Latest(RunsIn(s, g))
    && !Latest(RunsIn(s, g))[suite].state.Terminal()
  }

  ghost function CanceledSuite(s: StoreState, g: string, suite: string, now: int): map<string, Run> {
    if HasOpenSuite(s, g, suite) then
      var r := Latest(RunsIn(s, g))[suite];
      s.runs[r.id := r.(state := Canceled, finishedAt := Some(now))]
    else s.runs
  }

  predicate Final(state: RegressionState) {
    state in {RegPassed, RegFailed, RegErrored, RegCanceled}
  }

  /** What rolling up makes of a record: a final header is left alone. */
  ghost predicate RolledUpTo(s: StoreState, g: string, rec: Record, now: int) {
    ListsKnownRuns(s, g)
    && rec == if Final(s.regs[g].reg.state) then s.regs[g]
              else s.regs[g].(reg := RolledUp(s.regs[g].reg, RunsIn(s, g), now))
  }

  lemma RolledUpMeans(s: StoreState, g: string, rec: Record, now: int)
    requires g in s.regs && RolledUpTo(s, g, rec, now)
    ensures ListsKnownRuns(s, g)
    ensures rec == if s.regs[g].reg.state in {RegPassed, RegFailed, RegErrored, RegCanceled} then s.regs[g]
                   else s.regs[g].(reg := RolledUp(s.regs[g].reg, RunsIn(s, g), now))
  {
  }

  lemma StaysRolledUp(s: StoreState, g: string, now: int)
    requires Indexed(s) && g in s.regs && Final(s.regs[g].reg.state)
    ensures RolledUpTo(s, g, s.regs[g], now)
  {
    KnownRuns(s, g);
  }

  lemma IsRolledUp(s: StoreState, m: StoreState, g: string, now: int)
    requires ListsKnownRuns(m, g) && g in s.regs && m.regs[g] == s.regs[g] && m.runs == s.runs && !Final(s.regs[g].reg.state)
    ensures RolledUpTo(s, g, m.regs[g].(reg := RolledUp(m.regs[g].reg, RunsIn(m, g), now)), now)
  {
    assert RunsIn(s, g) == RunsIn(m, g);
  }

  lemma HeaderFits(cfg: Config, s: StoreState, g: string, runs: seq<Run>, now: int)
    requires Indexed(s) && g in s.regs
    ensures Enabled(cfg, s, Rollup(g, RolledUp(s.regs[g].reg, runs, now)))
  {
  }

  lemma HeaderCancels(cfg: Config, s: StoreState, g: string, now: int)
    requires Indexed(s) && g in s.regs
    ensures var e := Rollup(g, CanceledHeader(s.regs[g].reg, now)); Enabled(cfg, s, e) && Plain(e)
    ensures CanceledHeader(s.regs[g].reg, now).id == g && CanceledHeader(s.regs[g].reg, now).suites == s.regs[g].reg.suites
  {
  }

  function CanceledHeader(reg: Regression, now: int): Regression {
    reg.(state := RegCanceled, finishedAt := if reg.finishedAt.None? then Some(now) else reg.finishedAt)
  }

  ghost predicate CanceledSoFar(before: map<string, Run>, after: map<string, Run>, runs: seq<Run>, i: nat, now: int)
    requires i <= |runs|
  {
    after.Keys == before.Keys && forall id <- before :: after[id] == CanceledAmong(before[id], runs[..i], now)
  }

  lemma NoneCanceled(before: map<string, Run>, runs: seq<Run>, now: int)
    ensures CanceledSoFar(before, before, runs, 0, now)
  {
  }

  lemma AllCanceled(before: map<string, Run>, after: map<string, Run>, runs: seq<Run>, now: int)
    requires CanceledSoFar(before, after, runs, |runs|, now)
    ensures after.Keys == before.Keys && forall id <- before :: after[id] == CanceledAmong(before[id], runs, now)
  {
    assert runs[..|runs|] == runs;
  }

  /** Canceling the i-th run, if it is unfinished, is the next step. */
  lemma CancelStep(before: map<string, Run>, after: map<string, Run>, runs: seq<Run>, i: nat, now: int)
    requires i < |runs| && CanceledSoFar(before, after, runs, i, now)
    requires forall id <- before :: before[id].id == id
    requires forall r <- runs :: r.id in before && before[r.id] == r
    requires forall j, k | 0 <= j < k < |runs| :: runs[j].id != runs[k].id
    ensures runs[i].id in after && after[runs[i].id] == runs[i]
    ensures CanceledSoFar(before, if runs[i].state.Terminal() then after else after[runs[i].id := CanceledAmong(runs[i], runs, now)],
                          runs, i + 1, now)
  {
    var r := runs[i];
    assert runs[..i + 1] == runs[..i] + [r];
    assert r !in runs[..i];
    forall id <- before | id != r.id ensures before[id] in runs[..i + 1] <==> before[id] in runs[..i] {
      assert before[id] != r;
    }
  }

  /** The report names the node the run was pinned to, or none, and the run was dispatched. */
  predicate ReportPinned(r: Run, ev: RunEvent) {
    match ev
    case Started(_, nodeId, nodeName) => r.state.Terminal() || (r.state.InFlight() && Pinned(r, nodeId, nodeName))
    case Finished(_, _, _, nodeId, nodeName) => r.state.InFlight() ==> Pinned(r, nodeId, nodeName)
    case _ => true
  }

  lemma TouchedByResults(r: Run, e: Event)
    requires e.Results?
    ensures Touched(r, e) == AtNode(StartedBy(r.(summary := e.summary), e.now), e.nodeId, e.nodeName)
    ensures Touched(r, e).state == r.state
  {
  }

  lemma ThenVerdict(cfg: Config, inventory: seq<NodeInfo>, s: StoreState, results: seq<Event>, m: StoreState, more: seq<Event>,
                    s': StoreState, pinned: bool)
    requires Explains(cfg, inventory, s, results, m, pinned) && Explains(cfg, inventory, m, more, s', true)
    ensures Explains(cfg, inventory, s, results + more, s', pinned)
  {
    PinnedWeakerThan(cfg, inventory, m, more, s', pinned, true);
    ExplainsConcat(cfg, inventory, s, results, m, more, s', pinned);
  }

  lemma VerdictReported(r: Run, ev: RunEvent, now: int, results: seq<Event>, more: seq<Event>)
    requires ev.Finished? && results == [Results(ev.id, ev.summary, ev.nodeId, ev.nodeName, now)]
    requires if r.state.Terminal() then more == [] else Verdict(more, ev.id, VerdictOf(ev.state, ev.summary), now)
    ensures Reports(r, ev, now, results + more)
  {
    assert (results + more)[1..] == more;
  }

  function VerdictOf(state: Option<RunState>, summary: Summary): RunState {
    if state.Some? then state.value
    else if summary.failed + summary.errors > 0 then Failed
    else Passed
  }

  /** The events a report causes: one that comes too late or too early, none. */
  ghost predicate Reports(r: Run, ev: RunEvent, now: int, events: seq<Event>) {
    match ev
    case Started(id, nodeId, nodeName) =>
      events == if r.state.Terminal() then [] else [Start(id, nodeId, nodeName, now)]
    case InProgress(id, summary) =>
      events == if r.state.InFlight() then [Progress(id, summary)] else []
    case Finished(id, state, summary, nodeId, nodeName) =>
      && events != [] && events[0] == Results(id, summary, nodeId, nodeName, now)
      && if r.state.Terminal() then |events| == 1
         else Verdict(events[1..], id, VerdictOf(state, summary), now)
    case OtherPhase(_) => events == []
  }

  /** What a report makes of a run: started, it runs, from now unless it had a
      start; in progress, it has these results so far; finished, these results
      and, unless it is over already, the verdict: the one reported, or without
      one failed if any test did, else passed. */
  predicate AsReported(r: Run, ev: RunEvent, now: int, r': Run) {
    match ev
    case Started(_, nodeId, nodeName) =>
      r' == if r.state in {Passed, Failed, Errored, Timeout, Canceled} then r
            else r.(state := Running,
                    startedAt := if r.startedAt == None then Some(now) else r.startedAt,
                    nodeId := if nodeId == "" then r.nodeId else nodeId,
                    nodeName := if nodeId == "" then r.nodeName else nodeName)
    case InProgress(_, summary) =>
      r' == if r.state in {Dispatched, Running} then r.(summary := summary) else r
    case Finished(_, state, summary, nodeId, nodeName) =>
      var q := r.(summary := summary,
                  startedAt := if r.startedAt == None then Some(now) else r.startedAt,
                  nodeId := if nodeId == "" then r.nodeId else nodeId,
                  nodeName := if nodeId == "" then r.nodeName else nodeName);
      r' == if r.state in {Passed, Failed, Errored, Timeout, Canceled} then q
            else q.(state := if state != None then state.value else if summary.failed + summary.errors > 0 then Failed else Passed,
                    finishedAt := Some(now))
    case OtherPhase(_) => r' == r
  }

  /** If this run has just failed with attempts left, one run is new: its next
      attempt, queued. Otherwise none is. */
  ghost predicate RetriedAfter(before: map<string, Run>, after: map<string, Run>, id: string)
    requires id in before && id in after
  {
    var r := before[id];
    if r.state !in {Passed, Failed, Errored, Timeout, Canceled} && after[id].state in {Failed, Errored, Timeout} && r.attempt < r.maxAttempts
    then exists next ::
      && next !in before && after.Keys == before.Keys + {next}
      && after[next].state == Queued && after[next].attempt == r.attempt + 1 && after[next].maxAttempts == r.maxAttempts
      && after[next].regressionId == r.regressionId && after[next].spec == r.spec
    else after.Keys == before.Keys
  }

  lemma NamedById(s: StoreState, id: string)
    requires Indexed(s) && id in s.runs
    ensures s.runs[id].id == id
  {
  }

  lemma NextIsNew(cfg: Config, s: StoreState, id: string, next: Run)
    requires Indexed(s) && id in s.runs && IsRetryOf(cfg, s, s.runs[id], next)
    ensures next.id !in s.runs && next.regressionId == s.runs[id].regressionId && next.regressionId in s.regs
    ensures next.state == Queued && next.attempt == s.runs[id].attempt + 1
    ensures next.maxAttempts == s.runs[id].maxAttempts && next.spec == s.runs[id].spec
  {
  }

  lemma RunEventReports(cfg: Config, s: StoreState, e: Event)
    requires Indexed(s) && AboutARun(e) && Enabled(cfg, s, e)
    ensures var s' := Apply(s, e);
      && e.id in s'.runs && s'.runs[e.id] == Touched(s.runs[e.id], e)
      && (forall id <- s.runs | id != e.id :: id in s'.runs && s'.runs[id] == s.runs[id])
      && (if e.Finish? then RetriedAfter(s.runs, s'.runs, e.id) else s'.runs.Keys == s.runs.Keys)
  {
    hide RecordsOk;
    hide RunsOk;
    hide TokensOk;
    hide FreshRun;
    hide IsRetryOf;
    hide FirstAttempts;
    TouchedKeepsIdentity(s.runs[e.id], e);
    NamedById(s, e.id);
    if e.Finish? && e.retry.Some? {
      NextIsNew(cfg, s, e.id, e.retry.value);
      assert Apply(s, e).runs.Keys == s.runs.Keys + {e.retry.value.id};
    }
  }

  lemma EventsReport(r: Run, ev: RunEvent, now: int, events: seq<Event>)
    requires Reports(r, ev, now, events)
    ensures |events| <= 2 && forall e <- events :: AboutARun(e) && e.id == ev.id
    ensures events == [] ==> AsReported(r, ev, now, r)
    ensures |events| >= 1 ==> !events[0].Finish?
    ensures |events| == 1 ==> var q := Touched(r, events[0]);
      AsReported(r, ev, now, q) && (r.state.Terminal() || !q.state.Retryable())
    ensures |events| == 2 ==> var q := Touched(r, events[0]);
      && AsReported(r, ev, now, Touched(q, events[1]))
      && events[1].Finish? && q.state == r.state && SameIdentity(q, r)
  {
    assert |events| == 2 ==> events[1..][0] == events[1];
  }

  lemma ReportedRun(cfg: Config, s: StoreState, ev: RunEvent, now: int, events: seq<Event>)
    requires Indexed(s) && ev.id in s.runs && Reports(s.runs[ev.id], ev, now, events)
    requires Legal(cfg, s, events)
    ensures var s' := ApplyAll(cfg, s, events);
      && ev.id in s'.runs && AsReported(s.runs[ev.id], ev, now, s'.runs[ev.id])
      && (forall id <- s.runs | id != ev.id :: id in s'.runs && s'.runs[id] == s.runs[id])
      && RetriedAfter(s.runs, s'.runs, ev.id)
  {
    hide Enabled;
    hide RecordsOk;
    hide RunsOk;
    hide TokensOk;
    hide Legal;
    hide Apply;
    hide Touched;
    hide Reports;
    hide AsReported;
    EventsReport(s.runs[ev.id], ev, now, events);
    if events == [] {
      NoEvents(cfg, s);
    } else {
      FirstEvent(cfg, s, events);
      RunEventReports(cfg, s, events[0]);
      EventKeepsIndexed(cfg, s, events[0]);
      var m := Apply(s, events[0]);
      if |events| == 1 {
        assert events[1..] == [];
        NoEvents(cfg, m);
      } else {
        assert events[1..][0] == events[1];
        FirstEvent(cfg, m, events[1..]);
        RunEventReports(cfg, m, events[1]);
        assert events[1..][1..] == [];
        NoEvents(cfg, Apply(m, events[1]));
      }
    }
  }

  /** Neither does the report pass a run over failures, nor give one that has passed worse results. */
  predicate ReportKeepsClean(r: Run, ev: RunEvent) {
    match ev
    case Finished(_, state, summary, _, _) =>
      r.state.Passed? || (!r.state.Terminal() && VerdictOf(state, summary).Passed?) ==> CleanSummary(summary)
    case _ => true
  }

  /** The runner's own reports, with the verdict it draws, can only do so by
      coming when the run has passed already. */
  lemma RunnerReportKeepsClean(r: Run, id: string, exitCode: int, timedOut: bool, runErr: bool, summary: Summary, nodeId: string, nodeName: string)
    ensures ReportKeepsClean(r, Finished(id, Some(Classify(exitCode, timedOut, runErr, summary)), summary, nodeId, nodeName))
       <==> !(r.state.Passed? && !CleanSummary(summary))
  {
  }

  lemma FirstEvent(cfg: Config, s: StoreState, es: seq<Event>)
    requires Legal(cfg, s, es) && es != []
    ensures Enabled(cfg, s, es[0]) && (AboutARun(es[0]) ==> es[0].id in s.runs) && (es[0].Rollup? ==> es[0].regId in s.regs)
    ensures Legal(cfg, Apply(s, es[0]), es[1..]) && ApplyAll(cfg, s, es) == ApplyAll(cfg, Apply(s, es[0]), es[1..])
  {
  }

  lemma ReportedClean(cfg: Config, s: StoreState, ev: RunEvent, now: int, events: seq<Event>)
    requires Indexed(s) && AllClean(s) && ev.id in s.runs && Reports(s.runs[ev.id], ev, now, events)
    requires Legal(cfg, s, events)
    ensures AllClean(ApplyAll(cfg, s, events)) <==> ReportKeepsClean(s.runs[ev.id], ev)
  {
    hide Enabled;
    hide Indexed;
    hide AllClean;
    hide Legal;
    hide Apply;
    hide CleanSummary;
    if events == [] {
      NoEvents(cfg, s);
    } else {
      FirstEvent(cfg, s, events);
      EventKeepsClean(cfg, s, events[0]);
      EventKeepsIndexed(cfg, s, events[0]);
      var m := Apply(s, events[0]);
      if |events| == 1 {
        assert events[1..] == [];
        NoEvents(cfg, m);
      } else {
        var r := s.runs[ev.id];
        SecondEvent(cfg, s, ev, now, events);
        FirstEvent(cfg, m, events[1..]);
        EventKeepsClean(cfg, m, events[1]);
        assert events[1..][1..] == [];
        NoEvents(cfg, Apply(m, events[1]));
      }
    }
  }

  lemma NoEvents(cfg: Config, s: StoreState)
    ensures Legal(cfg, s, []) && ApplyAll(cfg, s, []) == s
  {
  }

  /** A verdict follows the results it was drawn from. */
  lemma SecondEvent(cfg: Config, s: StoreState, ev: RunEvent, now: int, events: seq<Event>)
    requires Indexed(s) && ev.id in s.runs && Reports(s.runs[ev.id], ev, now, events) && |events| > 1
    ensures ev.Finished? && !s.runs[ev.id].state.Terminal() && |events| == 2
    ensures AboutARun(events[0]) && events[0].id == ev.id
    ensures KeepsClean(s, events[0])
    ensures KeepsClean(Apply(s, events[0]), events[1]) <==> (VerdictOf(ev.state, ev.summary).Passed? ==> CleanSummary(ev.summary))
  {
    hide CleanSummary;
    hide RecordsOk;
    hide TokensOk;
    assert events[1..][0] == events[1];
  }

  function CanceledAmong(r: Run, runs: seq<Run>, now: int): Run {
    if r in runs && !r.state.Terminal() then r.(state := Canceled, finishedAt := Some(now)) else r
  }

  lemma CanceledMeans(s: StoreState, g: string, runs: seq<Run>, id: string, now: int)
    requires id in s.runs && (s.runs[id].regressionId == g ==> s.runs[id] in runs) && forall r <- runs :: r.regressionId == g
    ensures CanceledAmong(s.runs[id], runs, now) ==
      if s.runs[id].regressionId == g && s.runs[id].state !in {Passed, Failed, Errored, Timeout, Canceled}
      then s.runs[id].(state := Canceled, finishedAt := Some(now))
      else s.runs[id]
  {
  }

  /** The first i runs of the snapshot have been sifted: those still in flight
      and not overdue are in inflight, and the rest of the snapshot is untouched. */
  ghost predicate Sifted(cfg: Config, s: StoreState, all: seq<Run>, i: nat, inflight: seq<Run>, now: int)
    requires i <= |all|
  {
    && (forall a, b | 0 <= a < b < |all| :: all[a].id != all[b].id)
    && Handled(cfg, s, all[i..], now)
    && StillInFlight(s, inflight)
    && (forall r <- inflight :: r in all[..i])
    && (forall r <- all[..i] | r.state.InFlight() && !Overdue(cfg, r, now) :: r in inflight)
  }

  lemma StartSifting(cfg: Config, s: StoreState, all: seq<Run>, now: int)
    requires Snapshot(s, all) && Indexed(s)
    ensures Sifted(cfg, s, all, 0, [], now) && Turned(s, s, Ids(all[..0]), TimedOutAt(cfg, now))
  {
    NothingSifted(cfg, s, all, now);
    assert all[..0] == [];
    TurnNothing(s, TimedOutAt(cfg, now));
  }

  /** The next run of the snapshot is in the store as it was. */
  lemma NextSifted(cfg: Config, s: StoreState, m: StoreState, all: seq<Run>, i: nat, inflight: seq<Run>, now: int)
    requires i < |all| && Snapshot(s, all) && Sifted(cfg, m, all, i, inflight, now)
    ensures all[i].id in s.runs && s.runs[all[i].id] == all[i] && all[i].id in m.runs && m.runs[all[i].id] == all[i]
    ensures TouchesOnly(m, m, all[i].id) && forall a, b | 0 <= a < b < |all| :: all[a].id != all[b].id
    ensures !all[i].state.InFlight() ==> m.runs[all[i].id] == TimedOutAt(cfg, now)(all[i])
  {
    assert all[i] in all[i..] && all[i] in all;
  }

  lemma InFlightPinned(s: StoreState, m: StoreState, all: seq<Run>, inflight: seq<Run>, poll: string -> Status)
    requires Snapshot(s, all) && StillInFlight(m, inflight) && forall r <- inflight :: r in all
    ensures AllPinned(s, poll) ==> forall r <- inflight :: StatusPinned(r, poll(r.id))
  {
  }

  /** Timing out and then polling is reconciling. */
  lemma TurnedTwice(cfg: Config, s: StoreState, m: StoreState, s': StoreState, all: seq<Run>, inflight: seq<Run>, poll: string -> Status, now: int)
    requires Snapshot(s, all) && Turned(s, m, Ids(all), TimedOutAt(cfg, now)) && Turned(m, s', Ids(inflight), PolledBy(poll, now))
    requires RunsOk(s) && StillInFlight(m, inflight) && (forall r <- inflight :: r in all) && NoneOverdue(cfg, m, now)
    requires forall r <- all | r.state.InFlight() && !Overdue(cfg, r, now) :: r in inflight
    ensures forall id <- s.runs :: id in s'.runs && s'.runs[id] == Reconciled(cfg, poll, now, s.runs[id])
    ensures forall id <- s'.runs | id !in s.runs :: s'.runs[id].state.Queued?
  {
    hide NoneOverdue;
    hide Overdue;
    hide Polled;
    forall id <- s.runs ensures id in s'.runs && s'.runs[id] == Reconciled(cfg, poll, now, s.runs[id]) {
      var r := s.runs[id];
      assert r in all && id in Ids(all) && m.runs[id] == TimedOutAt(cfg, now)(r);
      if r.state.InFlight() && !Overdue(cfg, r, now) {
        assert r in inflight && r.id in Ids(inflight);
      } else {
        NotPolled(m, inflight, id);
      }
    }
  }

  lemma NotPolled(m: StoreState, inflight: seq<Run>, id: string)
    requires StillInFlight(m, inflight) && id in m.runs && !m.runs[id].state.InFlight()
    ensures id !in Ids(inflight)
  {
  }

  lemma NothingSifted(cfg: Config, s: StoreState, all: seq<Run>, now: int)
    requires Snapshot(s, all) && RunsOk(s)
    ensures Sifted(cfg, s, all, 0, [], now)
  {
    assert all[0..] == all;
    forall id <- s.runs ensures exists r <- all :: r.id == id {
      assert s.runs[id] in all;
    }
  }

  lemma SiftIdle(cfg: Config, s: StoreState, all: seq<Run>, i: nat, inflight: seq<Run>, now: int)
    requires i < |all| && Sifted(cfg, s, all, i, inflight, now) && !all[i].state.InFlight()
    ensures Sifted(cfg, s, all, i + 1, inflight, now)
  {
    assert all[i] in all[i..];
    assert all[..i + 1] == all[..i] + [all[i]];
    HandledOne(cfg, s, s, all, i, now);
  }

  lemma NextIsThere(cfg: Config, s: StoreState, all: seq<Run>, i: nat, now: int)
    requires i < |all| && Handled(cfg, s, all[i..], now)
    ensures all[i].id in s.runs && s.runs[all[i].id] == all[i]
  {
    assert all[i] in all[i..];
  }

  lemma SiftTimed(cfg: Config, s: StoreState, s': StoreState, all: seq<Run>, i: nat, inflight: seq<Run>, timedOut: bool, now: int)
    requires i < |all| && Sifted(cfg, s, all, i, inflight, now) && all[i].state.InFlight()
    requires TouchesOnly(s, s', all[i].id) && (timedOut <==> Overdue(cfg, all[i], now))
    requires if timedOut then all[i].id in s'.runs ==> s'.runs[all[i].id].state.Terminal() else s' == s
    ensures Sifted(cfg, s', all, i + 1, if timedOut then inflight else inflight + [all[i]], now)
  {
    hide Overdue;
    hide Handled;
    assert all[i..][0] == all[i];
    NextIsThere(cfg, s, all, i, now);
    assert all[..i + 1] == all[..i] + [all[i]];
    HandledOne(cfg, s, s', all, i, now);
    OthersStillInFlight(s, s', inflight, all, i);
  }

  lemma SiftedAll(cfg: Config, s: StoreState, all: seq<Run>, inflight: seq<Run>, now: int)
    requires Sifted(cfg, s, all, |all|, inflight, now)
    ensures NoneOverdue(cfg, s, now) && StillInFlight(s, inflight) && forall r <- inflight :: r in all
    ensures forall r <- all | r.state.InFlight() && !Overdue(cfg, r, now) :: r in inflight
  {
    assert all[..|all|] == all;
  }

  ghost predicate AllPinned(s: StoreState, poll: string -> Status) {
    forall id <- s.runs :: s.runs[id].state.InFlight() ==> StatusPinned(s.runs[id], poll(id))
  }

  /** The listed runs are different runs of the store, unchanged and in flight. */
  ghost predicate StillInFlight(s: StoreState, rs: seq<Run>) {
    && (forall r <- rs :: r.id in s.runs && s.runs[r.id] == r && r.state.InFlight())
    && (forall i, j | 0 <= i < j < |rs| :: rs[i].id != rs[j].id)
  }

  lemma OthersStillInFlight(s: StoreState, s': StoreState, rs: seq<Run>, all: seq<Run>, i: nat)
    requires i < |all| && TouchesOnly(s, s', all[i].id) && StillInFlight(s, rs)
    requires forall a, b | 0 <= a < b < |all| :: all[a].id != all[b].id
    requires forall r <- rs :: r in all[..i]
    ensures StillInFlight(s', rs) && forall r <- rs :: r.id != all[i].id
  {
    forall r <- rs ensures r.id != all[i].id {
      var k :| 0 <= k < i && all[k] == r;
    }
  }

  lemma RestStillInFlight(s: StoreState, s': StoreState, rs: seq<Run>)
    requires rs != [] && StillInFlight(s, rs) && TouchesOnly(s, s', rs[0].id)
    ensures StillInFlight(s', rs[1..])
  {
    forall r <- rs[1..] ensures r.id in s'.runs && s'.runs[r.id] == r && r.state.InFlight() {
      var k :| 1 <= k < |rs| && rs[k] == r;
    }
  }

  lemma AppliedNotOverdue(cfg: Config, s: StoreState, s': StoreState, r: Run, status: Status, now: int)
    requires NoneOverdue(cfg, s, now) && TouchesOnly(s, s', r.id) && r.id in s.runs && s.runs[r.id] == r && r.state.InFlight()
    requires s'.runs[r.id] == Polled(r, status, now)
    ensures NoneOverdue(cfg, s', now)
  {
    hide Polled;
    PolledNotOverdue(cfg, r, status, now);
    forall id <- s'.runs ensures s'.runs[id].state.InFlight() ==> !Overdue(cfg, s'.runs[id], now) {
      if id in s.runs && id != r.id {
        assert s'.runs[id] == s.runs[id];
      }
    }
  }

  lemma PolledNotOverdue(cfg: Config, r: Run, status: Status, now: int)
    requires r.state.InFlight() && !Overdue(cfg, r, now)
    ensures Polled(r, status, now).state.InFlight() ==> !Overdue(cfg, Polled(r, status, now), now)
  {
  }

  lemma PinnedWeakerThan(cfg: Config, inventory: seq<NodeInfo>, s: StoreState, es: seq<Event>, s': StoreState, strong: bool, weak: bool)
    requires Explains(cfg, inventory, s, es, s', weak) && (strong ==> weak)
    ensures Explains(cfg, inventory, s, es, s', strong)
  {
  }

  lemma RunIsListed(s: StoreState, id: string)
    requires Indexed(s) && id in s.runs
    ensures s.runs[id].id == id && s.runs[id].regressionId in s.regs
    ensures s.regs[s.runs[id].regressionId].reg.id == s.runs[id].regressionId
    ensures s.runs[id].spec in s.regs[s.runs[id].regressionId].reg.suites
  {
  }

  lemma ApplyFinish(s: StoreState, id: string, state: RunState, now: int, retry: Option<Run>)
    requires id in s.runs
    ensures var m := PutRun(s, s.runs[id].(state := state, finishedAt := Some(now)));
      Apply(s, Event.Finish(id, state, now, retry)) == if retry.None? then m else Lifecycle.AddRun(m, retry.value)
  {
  }

  lemma RetryFits(cfg: Config, s: StoreState, r: Run, retry: Run)
    requires r.regressionId in s.regs && s.regs[r.regressionId].reg.id == r.regressionId
    requires retry.id !in s.runs && retry.token !in s.tokens && retry.token != ""
    requires retry == NewRun(cfg, s.regs[r.regressionId].reg, r.spec, r.attempt + 1, retry.id, retry.token, retry.queuedAt)
                      .(maxAttempts := r.maxAttempts)
    ensures IsRetryOf(cfg, s, r, retry) && retry.regressionId == r.regressionId && retry.spec == r.spec && retry.suite == r.spec.name
  {
  }
}
