/** Admission as a sequence of greedy attempts against a ledger, and what it
    guarantees: limits, priority order, maximality and fair share. */
module Admission {
  import opened Wrappers
  import opened Counting
  import opened Catalogs
  import opened Quotas
  import opened Model
  import opened Ledgers

  // What came of handing a run to its node: placed, refused by the backend, or
  // failed before that because no run spec could be built.
  datatype Outcome = Placed | Refused | NoSpec

  // The queue entry picked, the node chosen for it, and what came of it.
  datatype Attempt = Attempt(index: nat, node: string, outcome: Outcome)

  /** Queue order: higher priority first, then oldest first. */
  predicate Before(a: Run, b: Run) {
    a.priority > b.priority || (a.priority == b.priority && a.queuedAt <= b.queuedAt)
  }

  ghost predicate Ordered(queue: seq<Run>) {
    forall i, j | 0 <= i < j < |queue| :: Before(queue[i], queue[j])
  }

  function NodeName(l: LedgerState, id: string): string {
    if id in l.nodes then l.nodes[id].info.name else ""
  }

  /** The run as it sits on the node. */
  function On(l: LedgerState, r: Run, id: string): Run {
    r.(nodeId := id, nodeName := NodeName(l, id))
  }

  function After(l: LedgerState, queue: seq<Run>, a: Attempt): LedgerState
    requires a.index < |queue|
  {
    if a.outcome.Placed? then Charge(l, ClaimOf(On(l, queue[a.index], a.node))) else l
  }

  ghost predicate InRange(queue: seq<Run>, attempts: seq<Attempt>) {
    forall a <- attempts :: a.index < |queue|
  }

  /** The ledger once these attempts are made. */
  ghost function Replay(l: LedgerState, queue: seq<Run>, attempts: seq<Attempt>): LedgerState
    requires InRange(queue, attempts)
  {
    if attempts == [] then l
    else After(Replay(l, queue, attempts[..|attempts| - 1]), queue, attempts[|attempts| - 1])
  }

  ghost predicate Attempted(attempts: seq<Attempt>, i: nat) {
    exists a <- attempts :: a.index == i
  }

  /** Entry i may be picked: not attempted yet, and it could start now. */
  ghost predicate Open(l: LedgerState, queue: seq<Run>, attempts: seq<Attempt>, i: nat) {
    i < |queue| && !Attempted(attempts, i) && Eligible(l, queue[i])
  }

  /** a is preferred to b: by priority, then by fewest slots held, then by queue order. */
  ghost predicate Preferred(l: LedgerState, queue: seq<Run>, a: nat, b: nat)
    requires a < |queue| && b < |queue|
  {
    || queue[a].priority > queue[b].priority
    || (queue[a].priority == queue[b].priority
        && (l.HeldBy(queue[a].user) < l.HeldBy(queue[b].user)
            || (l.HeldBy(queue[a].user) == l.HeldBy(queue[b].user) && a <= b)))
  }

  /** The next attempt is the preferred open entry, on a least loaded candidate node. */
  ghost predicate Greedy(l: LedgerState, queue: seq<Run>, attempts: seq<Attempt>, a: Attempt) {
    && Open(l, queue, attempts, a.index)
    && (forall j | Open(l, queue, attempts, j) :: Preferred(l, queue, a.index, j))
    && LeastLoaded(l, l.cat.Pool(queue[a.index].pool).value, queue[a.index], a.node)
  }

  /** The k-th attempt was greedy when it was made. */
  ghost predicate GreedyAt(l: LedgerState, queue: seq<Run>, attempts: seq<Attempt>, k: nat)
    requires k < |attempts|
  {
    InRange(queue, attempts[..k]) && Greedy(Replay(l, queue, attempts[..k]), queue, attempts[..k], attempts[k])
  }

  ghost predicate Follows(l: LedgerState, queue: seq<Run>, attempts: seq<Attempt>) {
    InRange(queue, attempts) && forall k | 0 <= k < |attempts| :: GreedyAt(l, queue, attempts, k)
  }

  lemma PrefixInRange(queue: seq<Run>, attempts: seq<Attempt>, k: nat)
    requires InRange(queue, attempts) && k <= |attempts|
    ensures InRange(queue, attempts[..k])
  {
  }

  lemma ReplayStep(l: LedgerState, queue: seq<Run>, attempts: seq<Attempt>, k: nat)
    requires InRange(queue, attempts) && k < |attempts|
    ensures InRange(queue, attempts[..k]) && InRange(queue, attempts[..k + 1])
    ensures Replay(l, queue, attempts[..k + 1]) == After(Replay(l, queue, attempts[..k]), queue, attempts[k])
  {
    assert attempts[..k + 1][..k] == attempts[..k];
  }

  lemma FollowsAppend(l: LedgerState, queue: seq<Run>, attempts: seq<Attempt>, a: Attempt)
    requires Follows(l, queue, attempts)
    requires Greedy(Replay(l, queue, attempts), queue, attempts, a)
    ensures Follows(l, queue, attempts + [a])
    ensures Replay(l, queue, attempts + [a]) == After(Replay(l, queue, attempts), queue, a)
  {
    var more := attempts + [a];
    assert more[..|attempts|] == attempts;
    forall k | 0 <= k < |attempts| ensures GreedyAt(l, queue, more, k) {
      assert more[..k] == attempts[..k];
      assert GreedyAt(l, queue, attempts, k);
    }
  }

  // ----------------------------------------------------------------- limits

  /** What a placed run adds to a rule's count. */
  lemma CountAfterCharge(l: LedgerState, c: Claim, rule: QuotaRule, user: string)
    ensures Count(Charge(l, c), rule, user)
         == Count(l, rule, user) + (if Sees(l.cat, rule, user, FlightOf(l.cat, c)) then 1 else 0)
  {
    CountAppend(l.inFlight, FlightOf(l.cat, c), SeenBy(l.cat, rule, user));
  }

  /** block looks at every scope charge counts in: a well shaped rule that will
      count the run applies to the run's user in one of the scopes checked. */
  lemma CountedScopesAreChecked(cat: Catalog, r: Run, node: string, rule: QuotaRule, user: string)
    requires rule.ValidShape()
    requires Sees(cat, rule, user, FlightOf(cat, Claim(r.user, r.pool, r.nodeId, node)))
    ensures rule.ScopeOf() in ScopesOf(cat, r.pool, Some(node))
  {
  }

  /** The rule is the per-user cap of this user somewhere, or an aggregate rule of the catalog. */
  ghost predicate Enforced(cat: Catalog, rule: QuotaRule, user: string) {
    rule in cat.quotas && (rule.together || UserCap(cat, user, rule.ScopeOf()) == Some(rule))
  }

  lemma AttemptKeepsLimit(l: LedgerState, r: Run, id: string, rule: QuotaRule, user: string)
    requires ValidRules(l.cat) && Enforced(l.cat, rule, user)
    requires id in l.nodes && !Blocked(l, r, Some(l.nodes[id].info.name))
    ensures Count(Charge(l, ClaimOf(On(l, r, id))), rule, user) <= Max(Count(l, rule, user), rule.maxSlots)
  {
    var name := l.nodes[id].info.name;
    var c := ClaimOf(On(l, r, id));
    CountAfterCharge(l, c, rule, user);
    if Sees(l.cat, rule, user, FlightOf(l.cat, c)) {
      assert rule.ValidShape();
      CountedScopesAreChecked(l.cat, On(l, r, id), name, rule, user);
      var sc := rule.ScopeOf();
      assert Applies(l.cat, r.user, sc, rule);
      assert !BlockedBy(l, r, Some(name), rule);
      assert sc in ScopesOf(l.cat, r.pool, Some(name));
      assert !Exhausted(l, rule, r.user);
      SameCount(l, rule, user, r.user);
    }
  }

  /** An aggregate rule's count does not depend on whom it is asked for. */
  lemma SameCount(l: LedgerState, rule: QuotaRule, u: string, v: string)
    requires rule.together || u == v
    ensures Count(l, rule, u) == Count(l, rule, v)
  {
    SameCountIn(l.cat, l.inFlight, rule, u, v);
  }

  lemma {:induction false} SameCountIn(cat: Catalog, fs: seq<Flight>, rule: QuotaRule, u: string, v: string)
    requires rule.together || u == v
    ensures CountIf(fs, SeenBy(cat, rule, u)) == CountIf(fs, SeenBy(cat, rule, v))
  {
    if fs != [] {
      SameCountIn(cat, fs[..|fs| - 1], rule, u, v);
    }
  }

  /** One tick, any starting ledger, any pattern of dispatch failures: a rule's
      count never ends above the larger of where it started and its limit. */
  lemma {:induction false} TickKeepsLimits(l: LedgerState, queue: seq<Run>, attempts: seq<Attempt>, rule: QuotaRule, user: string)
    requires ValidRules(l.cat) && Enforced(l.cat, rule, user)
    requires Follows(l, queue, attempts)
    ensures Replay(l, queue, attempts).cat == l.cat
    ensures Count(Replay(l, queue, attempts), rule, user) <= Max(Count(l, rule, user), rule.maxSlots)
  {
    if attempts != [] {
      var k := |attempts| - 1;
      FollowsPrefix(l, queue, attempts, k);
      TickKeepsLimits(l, queue, attempts[..k], rule, user);
      var m, a := Replay(l, queue, attempts[..k]), attempts[k];
      assert GreedyAt(l, queue, attempts, k);
      if a.outcome.Placed? {
        AttemptKeepsLimit(m, queue[a.index], a.node, rule, user);
      }
    }
  }

  lemma FollowsPrefix(l: LedgerState, queue: seq<Run>, attempts: seq<Attempt>, k: nat)
    requires Follows(l, queue, attempts) && k <= |attempts|
    ensures Follows(l, queue, attempts[..k])
  {
    forall j | 0 <= j < k ensures GreedyAt(l, queue, attempts[..k], j) {
      assert attempts[..k][..j] == attempts[..j];
      assert GreedyAt(l, queue, attempts, j);
    }
  }

  /** Likewise for the slots of a node. */
  lemma {:induction false} TickKeepsSlots(l: LedgerState, queue: seq<Run>, attempts: seq<Attempt>, id: string)
    requires id in l.nodes
    requires Follows(l, queue, attempts)
    ensures id in Replay(l, queue, attempts).nodes
    ensures var n, n' := l.nodes[id], Replay(l, queue, attempts).nodes[id];
      n'.info == n.info && n'.pool == n.pool && n.used <= n'.used <= Max(n.used, n.info.slots)
  {
    if attempts != [] {
      var k := |attempts| - 1;
      FollowsPrefix(l, queue, attempts, k);
      TickKeepsSlots(l, queue, attempts[..k], id);
      assert GreedyAt(l, queue, attempts, k);
    }
  }

  // --------------------------------------------------- charging only closes

  /** Charging never frees anything: counts only grow, and nodes only fill. */
  lemma ChargeIsAntitone(l: LedgerState, c: Claim, r: Run)
    ensures Eligible(Charge(l, c), r) ==> Eligible(l, r)
    ensures forall p, id :: Candidate(Charge(l, c), p, r, id) ==> Candidate(l, p, r, id)
  {
    var l' := Charge(l, c);
    forall node, rule | BlockedBy(l, r, node, rule) ensures BlockedBy(l', r, node, rule) {
      CountAfterCharge(l, c, rule, r.user);
      var sc :| sc in ScopesOf(l.cat, r.pool, node) && Applies(l.cat, r.user, sc, rule) && Exhausted(l, rule, r.user);
      assert Applies(l'.cat, r.user, sc, rule) && Exhausted(l', rule, r.user);
    }
    assert forall node | Blocked(l, r, node) :: Blocked(l', r, node);
    forall p, id | Candidate(l', p, r, id) ensures Candidate(l, p, r, id) {
      assert id in l.nodes && l'.nodes[id].info == l.nodes[id].info;
    }
  }

  /** A run that could start later in the tick could have started earlier in it. */
  lemma {:induction false} TickIsAntitone(l: LedgerState, queue: seq<Run>, attempts: seq<Attempt>, k: nat, r: Run)
    requires InRange(queue, attempts) && k <= |attempts|
    requires Eligible(Replay(l, queue, attempts), r)
    ensures InRange(queue, attempts[..k])
    ensures Eligible(Replay(l, queue, attempts[..k]), r)
  {
    PrefixInRange(queue, attempts, k);
    if k < |attempts| {
      var n := |attempts| - 1;
      AttemptIsAntitone(Replay(l, queue, attempts[..n]), queue, attempts[n], r);
      TickIsAntitone(l, queue, attempts[..n], k, r);
      assert attempts[..n][..k] == attempts[..k];
    } else {
      assert attempts[..k] == attempts;
    }
  }

  lemma AttemptIsAntitone(l: LedgerState, queue: seq<Run>, a: Attempt, r: Run)
    requires a.index < |queue| && Eligible(After(l, queue, a), r)
    ensures Eligible(l, r)
  {
    if a.outcome.Placed? {
      ChargeIsAntitone(l, ClaimOf(On(l, queue[a.index], a.node)), r);
    }
  }

  /** Priority wins outright: attempts come in non-increasing priority. */
  lemma AttemptsDescendInPriority(l: LedgerState, queue: seq<Run>, attempts: seq<Attempt>, j: nat, k: nat)
    requires Follows(l, queue, attempts) && j <= k < |attempts|
    ensures queue[attempts[j].index].priority >= queue[attempts[k].index].priority
  {
    var i := attempts[k].index;
    assert GreedyAt(l, queue, attempts, j) && GreedyAt(l, queue, attempts, k);
    assert attempts[..k][..j] == attempts[..j];
    TickIsAntitone(l, queue, attempts[..k], j, queue[i]);
    assert Open(Replay(l, queue, attempts[..j]), queue, attempts[..j], i);
  }

  /** No queue entry is attempted twice in a tick. */
  lemma AttemptsAreDistinct(l: LedgerState, queue: seq<Run>, attempts: seq<Attempt>, j: nat, k: nat)
    requires Follows(l, queue, attempts) && j < k < |attempts|
    ensures attempts[j].index != attempts[k].index
  {
    assert GreedyAt(l, queue, attempts, k) && attempts[j] in attempts[..k];
  }

  /** Nothing is left out: when the loop ends, no entry it did not attempt can
      start, nor could it once anything else were charged. */
  ghost predicate Complete(l: LedgerState, queue: seq<Run>, attempts: seq<Attempt>) {
    && Follows(l, queue, attempts)
    && forall i :: !Open(Replay(l, queue, attempts), queue, attempts, i)
  }

  // -------------------------------------------------------------- fair share

  /** The slots a user holds after k attempts. */
  ghost function Held(l: LedgerState, queue: seq<Run>, attempts: seq<Attempt>, k: nat, user: string): nat
    requires InRange(queue, attempts) && k <= |attempts|
  {
    PrefixInRange(queue, attempts, k);
    Replay(l, queue, attempts[..k]).HeldBy(user)
  }

  /** The user has an open entry at the priority of the k-th attempt. */
  ghost predicate Competes(l: LedgerState, queue: seq<Run>, attempts: seq<Attempt>, k: nat, user: string)
    requires InRange(queue, attempts) && k < |attempts|
  {
    PrefixInRange(queue, attempts, k);
    exists i: nat :: Open(Replay(l, queue, attempts[..k]), queue, attempts[..k], i)
      && queue[i].user == user && queue[i].priority == queue[attempts[k].index].priority
  }

  ghost function Gap(l: LedgerState, queue: seq<Run>, attempts: seq<Attempt>, k: nat, u: string, v: string): int
    requires InRange(queue, attempts) && k <= |attempts|
  {
    Held(l, queue, attempts, k, u) - Held(l, queue, attempts, k, v)
  }

  function Abs(x: int): nat {
    if x < 0 then -x else x
  }

  /** Only the picked user's holding changes, by at most one. */
  lemma HeldStep(l: LedgerState, queue: seq<Run>, attempts: seq<Attempt>, k: nat, user: string)
    requires InRange(queue, attempts) && k < |attempts|
    ensures Held(l, queue, attempts, k + 1, user) == Held(l, queue, attempts, k, user)
              + if attempts[k].outcome.Placed? && queue[attempts[k].index].user == user then 1 else 0
  {
    ReplayStep(l, queue, attempts, k);
  }

  /** The user picked holds no more than anyone who could have been picked instead. */
  lemma PickedHoldsLeast(l: LedgerState, queue: seq<Run>, attempts: seq<Attempt>, k: nat, user: string)
    requires Follows(l, queue, attempts) && k < |attempts|
    requires Competes(l, queue, attempts, k, user)
    ensures Held(l, queue, attempts, k, queue[attempts[k].index].user) <= Held(l, queue, attempts, k, user)
  {
    PrefixInRange(queue, attempts, k);
    var m, sofar, p := Replay(l, queue, attempts[..k]), attempts[..k], attempts[k].index;
    var i: nat :| Open(m, queue, sofar, i) && queue[i].user == user && queue[i].priority == queue[p].priority;
    assert GreedyAt(l, queue, attempts, k);
    assert Preferred(m, queue, p, i);
  }

  /** Fair share: over a stretch of attempts throughout which two users both
      have an open run at the priority being served, the difference between
      what they hold never exceeds the larger of 1 and what it was at the start. */
  lemma {:induction false} FairShare(l: LedgerState, queue: seq<Run>, attempts: seq<Attempt>, start: nat, end: nat, u: string, v: string)
    requires Follows(l, queue, attempts) && start <= end <= |attempts|
    requires forall k | start <= k < end :: Competes(l, queue, attempts, k, u) && Competes(l, queue, attempts, k, v)
    ensures Abs(Gap(l, queue, attempts, end, u, v)) <= Max(1, Abs(Gap(l, queue, attempts, start, u, v)))
    decreases end
  {
    if start < end {
      var k := end - 1;
      FairShare(l, queue, attempts, start, k, u, v);
      PickedHoldsLeast(l, queue, attempts, k, u);
      PickedHoldsLeast(l, queue, attempts, k, v);
      HeldStep(l, queue, attempts, k, u);
      HeldStep(l, queue, attempts, k, v);
    }
  }

  /** Among the picked user's own open runs at that priority, the oldest goes first. */
  lemma OldestFirst(l: LedgerState, queue: seq<Run>, attempts: seq<Attempt>, k: nat, i: nat)
    requires Follows(l, queue, attempts) && Ordered(queue) && k < |attempts|
    requires InRange(queue, attempts[..k]) && Open(Replay(l, queue, attempts[..k]), queue, attempts[..k], i)
    requires queue[i].user == queue[attempts[k].index].user && queue[i].priority == queue[attempts[k].index].priority
    ensures queue[attempts[k].index].queuedAt <= queue[i].queuedAt
  {
    var p := attempts[k].index;
    assert GreedyAt(l, queue, attempts, k);
    assert Preferred(Replay(l, queue, attempts[..k]), queue, p, i);
    if p < i {
      assert Before(queue[p], queue[i]);
    }
  }
}
