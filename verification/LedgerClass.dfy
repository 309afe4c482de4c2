/** The ledger as the scheduler keeps it: built from a snapshot of the runs,
    charged as runs are dispatched. */
module LedgerObject {
  import opened Wrappers
  import opened Counting
  import opened Text
  import opened Sorting
  import opened Catalogs
  import opened Quotas
  import opened Model
  import opened Ledgers
  import opened Limits

  /** The claims of the in-flight runs among rs, in order. */
  function ClaimsOf(rs: seq<Run>): seq<Claim> {
    if rs == [] then []
    else
      var cs, r := ClaimsOf(rs[..|rs| - 1]), rs[|rs| - 1];
      if r.state.InFlight() then cs + [ClaimOf(r)] else cs
  }

  lemma ChargeAllAppend(l: LedgerState, cs: seq<Claim>, c: Claim)
    ensures ChargeAll(l, cs + [c]) == Charge(ChargeAll(l, cs), c)
  {
    assert (cs + [c])[..|cs|] == cs;
  }

  lemma ScaleUp(x: nat, y: nat, z: nat)
    requires x > y && z > 0
    ensures x * z > y * z
  {
    assert (x - y) * z > 0;
  }

  lemma Swap(x: nat, y: nat, z: nat)
    ensures (x * y) * z == (x * z) * y
  {
  }

  lemma ScaleBy(x: nat, y: nat, z: nat)
    requires x <= y
    ensures x * z <= y * z
  {
    assert 0 <= (y - x) * z;
  }

  /** Free over total slots orders nodes transitively when totals are positive. */
  lemma LoadIsTransitive(fa: nat, sa: nat, fb: nat, sb: nat, fc: nat, sc: nat)
    requires sa > 0 && sb > 0 && sc > 0
    requires fb * sa < fa * sb && fc * sb <= fb * sc
    ensures fc * sa < fa * sc
  {
    var (ba, ab, cb, bc, ca, ac) := (fb * sa, fa * sb, fc * sb, fb * sc, fc * sa, fa * sc);
    ScaleBy(cb, bc, sa);
    ScaleUp(ab, ba, sc);
    Swap(fc, sb, sa);
    Swap(fb, sc, sa);
    Swap(fa, sb, sc);
    assert ca * sb < ac * sb;
    if ac <= ca {
      ScaleBy(ac, ca, sb);
    }
  }

  // Ready slots, and how many of them are taken.
  datatype Load = Load(slots: nat, used: nat)
  {
    function Plus(other: Load): Load {
      Load(slots + other.slots, used + other.used)
    }
  }

  function LoadOfNode(l: LedgerState, id: string): Load {
    if id in l.nodes && l.nodes[id].info.ready
    then Load(l.nodes[id].info.slots, Min(l.nodes[id].used, l.nodes[id].info.slots))
    else Load(0, 0)
  }

  function LoadOf(l: LedgerState, ids: seq<string>): Load {
    if ids == [] then Load(0, 0)
    else LoadOf(l, ids[..|ids| - 1]).Plus(LoadOfNode(l, ids[|ids| - 1]))
  }

  lemma {:induction false} LoadConcat(l: LedgerState, a: seq<string>, b: seq<string>)
    ensures LoadOf(l, a + b) == LoadOf(l, a).Plus(LoadOf(l, b))
    decreases |b|
  {
    if b == [] {
      assert a + b == a;
    } else {
      assert (a + b)[..|a + b| - 1] == a + b[..|b| - 1];
      LoadConcat(l, a, b[..|b| - 1]);
    }
  }

  lemma LoadInsert(l: LedgerState, a: seq<string>, x: string, b: seq<string>)
    ensures LoadOf(l, a + [x] + b) == LoadOf(l, a + b).Plus(LoadOfNode(l, x))
  {
    LoadConcat(l, a + [x], b);
    LoadConcat(l, a, b);
    assert (a + [x])[..|a|] == a;
  }

  lemma {:induction false} LoadPermutation(l: LedgerState, a: seq<string>, b: seq<string>)
    requires multiset(a) == multiset(b)
    ensures LoadOf(l, a) == LoadOf(l, b)
    decreases |a|
  {
    if a == [] {
      assert |multiset(b)| == |b|;
    } else {
      var a', x := a[..|a| - 1], a[|a| - 1];
      assert a == a' + [x];
      assert x in multiset(b);
      var k :| 0 <= k < |b| && b[k] == x;
      var b' := b[..k] + b[k + 1..];
      assert b == b[..k] + [x] + b[k + 1..];
      assert multiset(a') == multiset(a) - multiset{x};
      assert multiset(b') == multiset(b) - multiset{x};
      LoadPermutation(l, a', b');
      LoadInsert(l, b[..k], x, b[k + 1..]);
    }
  }

  function NameIn(names: map<string, string>): string -> string {
    id => if id in names then names[id] else ""
  }

  /** The nodes of a list of concrete pools, pool by pool. */
  function NodesListed(l: LedgerState, pools: seq<string>): seq<string> {
    if pools == [] then []
    else NodesListed(l, pools[..|pools| - 1]) + l.ListedIn(pools[|pools| - 1])
  }

  /** A pool's ready slots and how many are taken. */
  function CapacityOf(l: LedgerState, p: Pool): Load {
    LoadOf(l, NodesListed(l, p.NodePools()))
  }

  function SumOfCapacities(l: LedgerState, members: seq<string>): Load {
    if members == [] then Load(0, 0)
    else
      var rest := SumOfCapacities(l, members[..|members| - 1]);
      var m := l.cat.Pool(members[|members| - 1]);
      if m.Some? then rest.Plus(CapacityOf(l, m.value)) else rest
  }

  /** Each ready node adds its slots, and of those the ones taken. */
  lemma CapacityAdds(l: LedgerState, ids: seq<string>, id: string)
    requires id in l.nodes && forall i <- ids :: i in l.nodes
    ensures LoadOf(l, []) == Load(0, 0)
    ensures var n := l.nodes[id];
      LoadOf(l, ids + [id]) ==
        if !n.info.ready then LoadOf(l, ids)
        else Load(LoadOf(l, ids).slots + n.info.slots,
                  LoadOf(l, ids).used + if n.used < n.info.slots then n.used else n.info.slots)
  {
    assert (ids + [id])[..|ids|] == ids;
  }

  /** A virtual pool draws on exactly what its members offer. */
  lemma VirtualCapacityIsTheSumOfItsMembers(l: LedgerState, p: Pool)
    requires p.IsVirtual()
    requires forall m <- p.spans :: l.cat.Pool(m).Some? && !l.cat.Pool(m).value.IsVirtual()
    ensures CapacityOf(l, p) == SumOfCapacities(l, p.spans)
  {
    CapacityOfMembers(l, p.spans);
  }

  lemma {:induction false} CapacityOfMembers(l: LedgerState, members: seq<string>)
    requires forall m <- members :: l.cat.Pool(m).Some? && !l.cat.Pool(m).value.IsVirtual()
    ensures LoadOf(l, NodesListed(l, members)) == SumOfCapacities(l, members)
  {
    if members != [] {
      var rest, m := members[..|members| - 1], members[|members| - 1];
      CapacityOfMembers(l, rest);
      LoadConcat(l, NodesListed(l, rest), l.ListedIn(m));
      var one := l.cat.Pool(m).value.NodePools();
      assert one == [m] && one[..0] == [];
      assert NodesListed(l, one) == [] + l.ListedIn(m) == l.ListedIn(m);
    }
  }

  class Ledger {
    const cat: Catalog
    var nodes: map<string, NodeLedger>
    var byPool: map<string, seq<string>>
    var byUser: map<string, nat>
    var inFlight: seq<Flight>

    ghost function State(): LedgerState
      reads this
    {
      LedgerState(cat, nodes, byPool, byUser, inFlight)
    }

    constructor (cat: Catalog, inventory: seq<NodeInfo>, runs: seq<Run>)
      ensures State() == ChargeAll(Idle(cat, inventory), ClaimsOf(runs))
      ensures (UniqueIds(inventory) ==> State().Valid()) && this.cat == cat
    {
      this.cat := cat;
      nodes, byPool, byUser, inFlight := map[], map[], map[], [];
      new;
      for i := 0 to |inventory|
        invariant this.cat == cat && State() == Idle(cat, inventory[..i])
      {
        var n := inventory[i];
        assert inventory[..i + 1][..i] == inventory[..i];
        var entry := NodeLedger(n, cat.NodePool(n.name), 0);
        nodes := nodes[n.id := entry];
        if entry.pool != "" {
          byPool := byPool[entry.pool := (if entry.pool in byPool then byPool[entry.pool] else []) + [n.id]];
        }
      }
      assert inventory[..|inventory|] == inventory;
      if UniqueIds(inventory) {
        IdleIsValid(cat, inventory);
      }
      ghost var idle := State();
      for i := 0 to |runs|
        invariant this.cat == cat && State() == ChargeAll(idle, ClaimsOf(runs[..i]))
        invariant UniqueIds(inventory) ==> State().Valid()
      {
        var r := runs[i];
        assert runs[..i + 1][..i] == runs[..i];
        if r.state == Dispatched || r.state == Running {
          ChargeAllAppend(idle, ClaimsOf(runs[..i]), ClaimOf(r));
          Charge(r);
        }
      }
      assert runs[..|runs|] == runs;
    }

    method Charge(r: Run)
      modifies this
      ensures State() == Ledgers.Charge(old(State()), ClaimOf(r))
      ensures old(State().Valid()) ==> State().Valid()
    {
      if State().Valid() {
        ChargeKeepsValid(State(), ClaimOf(r));
      }
      if r.nodeId in nodes {
        nodes := nodes[r.nodeId := nodes[r.nodeId].(used := nodes[r.nodeId].used + 1)];
      }
      byUser := byUser[r.user := (if r.user in byUser then byUser[r.user] else 0) + 1];
      var pools := FindPools(r.pool, r.nodeName);
      inFlight := inFlight + [Flight(r.user, r.nodeName, pools)];
    }

    method FindPools(pool: string, node: string) returns (out: set<string>)
      ensures out == PoolsOf(cat, pool, node)
    {
      out := {pool};
      var concrete := cat.NodePool(node);
      if concrete == "" {
        var p := cat.Pool(pool);
        if p.Some? && !p.value.IsVirtual() {
          concrete := pool;
        }
      }
      if concrete != "" {
        out := out + {concrete};
        for i := 0 to |cat.pools|
          invariant out == {pool, concrete} + set p | p in cat.pools[..i] && concrete in p.spans :: p.name
        {
          assert cat.pools[..i + 1] == cat.pools[..i] + [cat.pools[i]];
          var spans := cat.pools[i].spans;
          for j := 0 to |spans|
            invariant out == {pool, concrete}
                             + (set p | p in cat.pools[..i] && concrete in p.spans :: p.name)
                             + if concrete in spans[..j] then {cat.pools[i].name} else {}
          {
            assert spans[..j + 1] == spans[..j] + [spans[j]];
            if spans[j] == concrete {
              out := out + {cat.pools[i].name};
            }
          }
          assert spans[..|spans|] == spans;
        }
        assert cat.pools[..|cat.pools|] == cat.pools;
      }
    }

    /** How many in-flight runs a rule sees. */
    method CountSeen(r: QuotaRule, user: string) returns (n: nat)
      ensures n == Count(State(), r, user)
    {
      n := 0;
      for i := 0 to |inFlight|
        invariant n == CountIf(inFlight[..i], SeenBy(cat, r, user))
      {
        var f := inFlight[i];
        CountAppend(inFlight[..i], f, SeenBy(cat, r, user));
        assert inFlight[..i + 1] == inFlight[..i] + [f];
        match r.scope {
          case InPool =>
            if r.target !in f.pools {
              continue;
            }
          case OnNode =>
            if f.node != r.target {
              continue;
            }
          case _ =>
        }
        if !r.together {
          if f.user != user {
            continue;
          }
        } else if r.subject == OneGroup {
          if r.name !in cat.UserGroups(f.user) {
            continue;
          }
        }
        n := n + 1;
      }
      assert inFlight[..|inFlight|] == inFlight;
    }

    method ListScopes(pool: string, node: Option<string>) returns (scopes: seq<Scope>)
      ensures forall sc :: sc in scopes <==> sc in ScopesOf(cat, pool, node)
    {
      scopes := [EVERYWHERE, Scope(InPool, pool)];
      if node.Some? {
        var pools := FindPools(pool, node.value);
        var rest := pools;
        while rest != {}
          invariant rest <= pools
          invariant forall sc :: sc in scopes <==>
                      sc == EVERYWHERE || sc == Scope(InPool, pool)
                      || (sc.kind == InPool && sc.target in pools - rest)
        {
          var p :| p in rest;
          rest := rest - {p};
          if p != pool {
            scopes := scopes + [Scope(InPool, p)];
          }
        }
        scopes := scopes + [Scope(OnNode, node.value)];
      }
    }

    /** The exhausted rule that keeps the run from taking a slot, if there is one. */
    method Block(r: Run, node: Option<string>) returns (why: Option<QuotaRule>)
      ensures why.Some? ==> BlockedBy(State(), r, node, why.value)
      ensures why.None? ==> !Blocked(State(), r, node)
    {
      var scopes := ListScopes(r.pool, node);
      for i := 0 to |scopes|
        invariant forall k, rule | 0 <= k < i && Applies(cat, r.user, scopes[k], rule) :: !Exhausted(State(), rule, r.user)
      {
        assert scopes[i] in ScopesOf(cat, r.pool, node);
        why := BlockIn(r.user, scopes[i]);
        if why.Some? {
          return;
        }
      }
      return None;
    }

    method BlockIn(user: string, scope: Scope) returns (why: Option<QuotaRule>)
      ensures why.Some? ==> Applies(cat, user, scope, why.value) && Exhausted(State(), why.value, user)
      ensures why.None? ==> forall rule | Applies(cat, user, scope, rule) :: !Exhausted(State(), rule, user)
    {
      var cap := FindUserCap(cat, user, scope);
      if cap.Some? {
        var used := CountSeen(cap.value, user);
        if used >= cap.value.maxSlots {
          return cap;
        }
      }
      var together := FindTogetherRules(cat, user, scope);
      for j := 0 to |together|
        invariant forall k | 0 <= k < j :: !Exhausted(State(), together[k], user)
      {
        var used := CountSeen(together[j], user);
        if used >= together[j].maxSlots {
          return Some(together[j]);
        }
      }
      return None;
    }

    /** The nodes a pool can place on, by name. */
    method PoolNodes(p: Pool) returns (out: seq<string>)
      requires State().Valid()
      ensures forall id :: id in out <==>
                id in nodes && nodes[id].pool != "" && nodes[id].pool in if p.spans == [] then [p.name] else p.spans
      ensures forall i, j | 0 <= i < j < |out| :: AtMost(nodes[out[i]].info.name, nodes[out[j]].info.name)
      ensures LoadOf(State(), out) == CapacityOf(State(), p)
    {
      out := [];
      var pools := p.NodePools();
      for i := 0 to |pools|
        invariant out == NodesListed(State(), pools[..i])
        invariant ListsNodesOf(State(), out, pools[..i])
      {
        assert pools[..i + 1][..i] == pools[..i];
        ListsOneMorePool(State(), out, pools, i);
        out := out + if pools[i] in byPool then byPool[pools[i]] else [];
      }
      assert pools[..|pools|] == pools;
      assert forall id <- out :: id in nodes;
      out := OrderByName(out);
    }

    method OrderByName(ids: seq<string>) returns (out: seq<string>)
      requires forall id <- ids :: id in nodes
      ensures forall id :: id in out <==> id in ids
      ensures forall i, j | 0 <= i < j < |out| :: AtMost(nodes[out[i]].info.name, nodes[out[j]].info.name)
      ensures LoadOf(State(), out) == LoadOf(State(), ids)
    {
      var names := map id | id in nodes :: nodes[id].info.name;
      ByNameIsTotal(NameIn(names));
      out := Sort(ids, ByName(NameIn(names)));
      LoadPermutation(State(), out, ids);
      forall i, j | 0 <= i < j < |out| ensures AtMost(nodes[out[i]].info.name, nodes[out[j]].info.name) {
        assert ByName(NameIn(names))(out[i], out[j]);
      }
    }

    /** The ready slots a pool can draw on, and how many are taken. */
    method FindCapacity(p: Pool) returns (slots: nat, used: nat)
      requires State().Valid()
      ensures Load(slots, used) == CapacityOf(State(), p)
    {
      var ids := PoolNodes(p);
      slots, used := SumUp(ids);
    }

    method SumUp(ids: seq<string>) returns (slots: nat, used: nat)
      requires forall id <- ids :: id in nodes
      ensures Load(slots, used) == LoadOf(State(), ids)
    {
      slots, used := 0, 0;
      for i := 0 to |ids|
        invariant Load(slots, used) == LoadOf(State(), ids[..i])
      {
        assert ids[..i + 1][..i] == ids[..i];
        var n := nodes[ids[i]];
        if n.info.ready {
          slots := slots + n.info.slots;
          used := used + Min(n.used, n.info.slots);
        }
      }
      assert ids[..|ids|] == ids;
    }

    /** May the node take the run, and if only a rule forbids it, which? */
    method Try(p: Pool, r: Run, id: string) returns (ok: bool, why: Option<QuotaRule>)
      requires id in nodes && nodes[id].pool in p.NodePools()
      ensures ok == Candidate(State(), p, r, id)
      ensures why.Some? <==> Fits(State(), p, r, id) && !ok
      ensures why.Some? ==> RefusedBy(State(), p, r, why.value)
    {
      var n := nodes[id];
      if n.Free() == 0 || !Satisfies(n.info.meta, p.constraints) || !Satisfies(n.info.meta, r.spec.requires_) {
        return false, None;
      }
      why := Block(r, Some(n.info.name));
      ok := why.None?;
    }

    /** The node for a run, and, when some node was refused by a rule alone, such a rule. */
    method Pick(p: Pool, r: Run) returns (best: Option<string>, refused: Option<QuotaRule>)
      requires State().Valid()
      ensures best.None? <==> forall id :: !Candidate(State(), p, r, id)
      ensures best.Some? ==> LeastLoaded(State(), p, r, best.value)
      ensures best.Some? ==> best.value in nodes && Suits(cat, nodes[best.value].info, nodes[best.value].used, p, r)
                             && !Blocked(State(), r, Some(nodes[best.value].info.name))
      ensures forall id | id in nodes && Suits(cat, nodes[id].info, nodes[id].used, p, r) && !Blocked(State(), r, Some(nodes[id].info.name)) ::
                best.Some? && best.value in nodes && AsFree(nodes[best.value], nodes[id])
      ensures refused.None? <==> forall id | Fits(State(), p, r, id) :: Candidate(State(), p, r, id)
      ensures refused.Some? ==> RefusedBy(State(), p, r, refused.value)
    {
      hide Suits;
      hide AsFree;
      hide Satisfies;
      hide NoMoreLoaded;
      hide RefusedBy;
      hide Blocked;
      ghost var candidates := set id | id in nodes && Candidate(State(), p, r, id);
      ghost var fitting := set id | id in nodes && Fits(State(), p, r, id);
      var ids := PoolNodes(p);
      best, refused := PickAmong(p, r, ids, candidates, fitting);
      assert forall id :: Candidate(State(), p, r, id) <==> id in candidates;
      PickMeans(State(), p, r, best);
    }

    method PickAmong(p: Pool, r: Run, ids: seq<string>, ghost candidates: set<string>, ghost fitting: set<string>)
      returns (best: Option<string>, refused: Option<QuotaRule>)
      requires forall id {:trigger Candidate(State(), p, r, id)} :: id in candidates <==> Candidate(State(), p, r, id)
      requires forall id {:trigger Fits(State(), p, r, id)} :: id in fitting <==> Fits(State(), p, r, id)
      requires forall id <- ids :: id in nodes && nodes[id].pool in p.NodePools()
      requires forall i, j | 0 <= i < j < |ids| :: AtMost(nodes[ids[i]].info.name, nodes[ids[j]].info.name)
      requires forall id <- fitting :: id in ids && nodes[id].Free() > 0
      requires candidates <= fitting
      ensures best.None? <==> candidates == {}
      ensures best.Some? ==> best.value in candidates && BestOf(State(), best.value, candidates)
      ensures refused.None? <==> fitting == candidates
      ensures refused.Some? ==> RefusedBy(State(), p, r, refused.value)
    {
      hide Candidate;
      hide Fits;
      hide RefusedBy;
      hide BestOf;
      hide LessLoaded;
      hide Satisfies;
      best, refused := None, None;
      ghost var seen: set<string> := {};
      for i := 0 to |ids|
        invariant seen <= candidates
        invariant forall c <- seen :: c in ids[..i]
        invariant forall k | 0 <= k < i :: ids[k] in candidates <==> ids[k] in seen
        invariant best.None? <==> seen == {}
        invariant best.Some? ==> best.value in seen && BestOf(State(), best.value, seen)
        invariant refused.None? <==> forall k | 0 <= k < i && ids[k] in fitting :: ids[k] in candidates
        invariant refused.Some? ==> RefusedBy(State(), p, r, refused.value)
      {
        var id := ids[i];
        var ok, why := Try(p, r, id);
        if ok {
          if best.None? {
            AloneIsBest(State(), id);
            assert seen + {id} == {id};
            best := Some(id);
          } else if LessLoaded(nodes[id], nodes[best.value]) {
            BestIsListed(State(), best.value, seen);
            LighterIsBest(State(), best.value, id, seen);
            best := Some(id);
          } else {
            var b :| 0 <= b < i && ids[b] == best.value;
            HeavierIsNotBest(State(), best.value, id, seen);
          }
          seen := seen + {id};
        } else if why.Some? {
          refused := why;
        }
      }
      forall id <- candidates ensures id in seen {
        var k :| 0 <= k < |ids| && ids[k] == id;
      }
      assert seen == candidates;
    }
  }

  /** Of a's slots at least as many are free as of b's, in proportion, and if
      just as many, a's name comes first. */
  predicate AsFree(a: NodeLedger, b: NodeLedger) {
    var (freeA, freeB) := (a.info.slots - a.used, b.info.slots - b.used);
    && freeB * a.info.slots <= freeA * b.info.slots
    && (freeB * a.info.slots == freeA * b.info.slots ==> !Less(b.info.name, a.info.name))
  }

  lemma LoadMeans(a: NodeLedger, b: NodeLedger)
    requires a.Free() > 0 && b.Free() > 0
    ensures AsFree(a, b) <==> NoMoreLoaded(a, b)
  {
  }

  /** Whether a node fits, over the worker as it is. */
  lemma FitsMeans(l: LedgerState, p: Pool, r: Run, id: string)
    requires l.Valid()
    ensures Fits(l, p, r, id) <==> id in l.nodes && Suits(l.cat, l.nodes[id].info, l.nodes[id].used, p, r)
    ensures Fits(l, p, r, id) ==> l.nodes[id].Free() > 0
  {
    if id in l.nodes {
      LabelsMean(l.nodes[id].info.meta, p.constraints);
      LabelsMean(l.nodes[id].info.meta, r.spec.requires_);
    }
  }

  /** A least loaded candidate, over the workers as they are. */
  lemma PickMeans(l: LedgerState, p: Pool, r: Run, best: Option<string>)
    requires l.Valid()
    requires best.None? <==> forall id :: !Candidate(l, p, r, id)
    requires best.Some? ==> LeastLoaded(l, p, r, best.value)
    ensures best.Some? ==> best.value in l.nodes && Suits(l.cat, l.nodes[best.value].info, l.nodes[best.value].used, p, r)
                           && !Blocked(l, r, Some(l.nodes[best.value].info.name))
    ensures forall id | id in l.nodes && Suits(l.cat, l.nodes[id].info, l.nodes[id].used, p, r) && !Blocked(l, r, Some(l.nodes[id].info.name)) ::
              best.Some? && best.value in l.nodes && AsFree(l.nodes[best.value], l.nodes[id])
  {
    hide Suits;
    hide AsFree;
    hide Fits;
    hide NoMoreLoaded;
    hide Blocked;
    if best.Some? {
      FitsMeans(l, p, r, best.value);
    }
    forall id | id in l.nodes && Suits(l.cat, l.nodes[id].info, l.nodes[id].used, p, r) && !Blocked(l, r, Some(l.nodes[id].info.name))
      ensures best.Some? && best.value in l.nodes && AsFree(l.nodes[best.value], l.nodes[id])
    {
      FitsMeans(l, p, r, id);
      assert Candidate(l, p, r, id);
      LoadMeans(l.nodes[best.value], l.nodes[id]);
    }
  }

  lemma LabelsMean(meta: map<string, string>, wants: map<string, string>)
    ensures Satisfies(meta, wants) <==> HasLabels(meta, wants)
  {
  }

  /** ids are the nodes assigned to these pools. */
  ghost predicate ListsNodesOf(l: LedgerState, ids: seq<string>, pools: seq<string>) {
    forall id :: id in ids <==> id in l.nodes && l.nodes[id].pool != "" && l.nodes[id].pool in pools
  }

  lemma ListsOneMorePool(l: LedgerState, ids: seq<string>, pools: seq<string>, i: nat)
    requires l.Valid() && i < |pools| && ListsNodesOf(l, ids, pools[..i])
    ensures ListsNodesOf(l, ids + l.ListedIn(pools[i]), pools[..i + 1])
  {
    assert pools[..i + 1] == pools[..i] + [pools[i]];
  }

  /** More of a's slots are free than of b's, in proportion. */
  predicate LessLoaded(a: NodeLedger, b: NodeLedger) {
    a.Free() * b.info.slots > b.Free() * a.info.slots
  }

  /** No node of the set beats id. */
  ghost predicate BestOf(l: LedgerState, id: string, ids: set<string>) {
    && id in l.nodes
    && forall c <- ids :: c in l.nodes && NoMoreLoaded(l.nodes[id], l.nodes[c])
  }

  lemma AloneIsBest(l: LedgerState, id: string)
    requires id in l.nodes
    ensures BestOf(l, id, {id})
  {
    LessIsIrreflexive(l.nodes[id].info.name);
  }

  lemma BestIsListed(l: LedgerState, best: string, seen: set<string>)
    requires BestOf(l, best, seen)
    ensures best in l.nodes && forall c <- seen :: c in l.nodes
  {
  }

  lemma LighterIsBest(l: LedgerState, best: string, id: string, seen: set<string>)
    requires BestOf(l, best, seen) && id in l.nodes && l.nodes[best].Free() > 0 && l.nodes[id].Free() > 0
    requires forall c <- seen :: l.nodes[c].Free() > 0
    requires LessLoaded(l.nodes[id], l.nodes[best])
    ensures BestOf(l, id, seen + {id})
  {
    LessIsIrreflexive(l.nodes[id].info.name);
    forall c <- seen ensures NoMoreLoaded(l.nodes[id], l.nodes[c]) {
      LighterWins(l.nodes[id], l.nodes[best], l.nodes[c]);
    }
  }

  lemma HeavierIsNotBest(l: LedgerState, best: string, id: string, seen: set<string>)
    requires BestOf(l, best, seen) && id in l.nodes
    requires !LessLoaded(l.nodes[id], l.nodes[best])
    requires AtMost(l.nodes[best].info.name, l.nodes[id].info.name)
    ensures BestOf(l, best, seen + {id})
  {
  }

  ghost predicate RefusedBy(l: LedgerState, p: Pool, r: Run, rule: QuotaRule) {
    exists id :: Fits(l, p, r, id) && BlockedBy(l, r, Some(l.nodes[id].info.name), rule)
  }

  lemma LighterWins(n: NodeLedger, best: NodeLedger, c: NodeLedger)
    requires n.Free() > 0 && best.Free() > 0 && c.Free() > 0
    requires best.Free() * n.info.slots < n.Free() * best.info.slots
    requires NoMoreLoaded(best, c)
    ensures NoMoreLoaded(n, c)
  {
    LoadIsTransitive(n.Free(), n.info.slots, best.Free(), best.info.slots, c.Free(), c.info.slots);
  }
}
