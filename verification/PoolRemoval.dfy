/** Removing a pool: when what is left can still run everything it runs today. */
module PoolRemoval {
  import opened Wrappers
  import opened Counting
  import opened Catalogs
  import opened Validation
  import opened CatalogEdits
  import opened EditSafety

  /** The pools left when one is gone. */
  function Left(ps: seq<Pool>, name: string): seq<Pool> {
    Mapped(Removed(ps, NameOfPool, name), NotSpanning(name))
  }

  lemma FindOnly(ps: seq<Pool>, p: Pool)
    requires UniqueBy(ps, NameOfPool) && p in ps
    ensures FindPool(ps, p.name) == Some(p)
  {
    KeysIdentify(ps, NameOfPool, FindPool(ps, p.name).value, p);
  }

  lemma LeftIsUnique(ps: seq<Pool>, name: string)
    requires UniqueBy(ps, NameOfPool)
    ensures UniqueBy(Left(ps, name), NameOfPool)
  {
    var rest := Removed(ps, NameOfPool, name);
    RemovedKeeps(ps, NameOfPool, name);
    forall i, j | 0 <= i < j < |rest| ensures NameOfPool(Left(ps, name)[i]) != NameOfPool(Left(ps, name)[j]) {
      assert NameOfPool(rest[i]) != NameOfPool(rest[j]);
    }
  }

  /** Who is left: the other pools, no longer spanning the one that is gone. */
  lemma LeftHolds(ps: seq<Pool>, name: string, q: Pool)
    requires UniqueBy(ps, NameOfPool)
    ensures q in Left(ps, name) <==> exists p <- ps :: p.name != name && q == NotSpanning(name)(p)
  {
    hide Removed;
    hide NotSpanning;
    hide Without;
    var rest := Removed(ps, NameOfPool, name);
    RemovedKeeps(ps, NameOfPool, name);
    if q in Left(ps, name) {
      var i :| 0 <= i < |rest| && Left(ps, name)[i] == q;
      assert rest[i] in ps && NameOfPool(rest[i]) != name;
    }
    if p :| p in ps && p.name != name && q == NotSpanning(name)(p) {
      assert NameOfPool(p) != name;
      var i :| 0 <= i < |rest| && rest[i] == p;
      assert Left(ps, name)[i] == q;
    }
  }

  lemma FindLeft(ps: seq<Pool>, name: string, other: string)
    requires UniqueBy(ps, NameOfPool)
    ensures FindPool(Left(ps, name), other)
         == if other == name || FindPool(ps, other).None? then None else Some(NotSpanning(name)(FindPool(ps, other).value))
  {
    LeftIsUnique(ps, name);
    if other != name && FindPool(ps, other).Some? {
      var p := FindPool(ps, other).value;
      LeftHolds(ps, name, NotSpanning(name)(p));
      FindOnly(Left(ps, name), NotSpanning(name)(p));
    } else if FindPool(Left(ps, name), other).Some? {
      LeftHolds(ps, name, FindPool(Left(ps, name), other).value);
    }
  }

  lemma ConcreteLeft(ps: seq<Pool>, name: string, other: string)
    requires UniqueBy(ps, NameOfPool) && IsConcrete(ps, other) && other != name
    ensures IsConcrete(Left(ps, name), other) && FindPool(Left(ps, name), other) == FindPool(ps, other)
  {
    FindLeft(ps, name, other);
    WithoutStranger(FindPool(ps, other).value.spans, name);
  }

  /** A virtual pool that keeps a member runs as before: it inherits the same
      runtime and driver from whichever member comes first. */
  lemma StillAgrees(ps: seq<Pool>, name: string, p: Pool)
    requires UniqueBy(ps, NameOfPool) && PoolOk(ps, p) && Without(p.spans, name) != []
    ensures PoolOk(Left(ps, name), NotSpanning(name)(p))
  {
    var q := NotSpanning(name)(p);
    SpansLeft(ps, name, p);
    SettingsLeft(ps, name, p);
    forall m <- q.spans ensures AgreesWith(Left(ps, name), q, m) {
      assert AgreesWith(ps, p, m);
      ConcreteLeft(ps, name, m);
    }
  }

  lemma SpansLeft(ps: seq<Pool>, name: string, p: Pool)
    requires UniqueBy(ps, NameOfPool) && SpansOk(ps, p)
    ensures SpansOk(Left(ps, name), NotSpanning(name)(p))
  {
    WithoutKeepsDistinct(p.spans, name);
    forall m <- Without(p.spans, name) ensures IsConcrete(Left(ps, name), m) {
      ConcreteLeft(ps, name, m);
    }
  }

  lemma SameSettings(p: Pool, q: Pool, first: Pool, m: Pool)
    requires q == p.(spans := q.spans) && Agree(m, Inherit(p, first))
    ensures Inherit(q, m).runtime == Inherit(p, first).runtime && Inherit(q, m).Driver() == Inherit(p, first).Driver()
  {
  }

  lemma SettingsLeft(ps: seq<Pool>, name: string, p: Pool)
    requires UniqueBy(ps, NameOfPool) && PoolOk(ps, p) && Without(p.spans, name) != []
    ensures var before, after := Inherited(ps, p), Inherited(Left(ps, name), NotSpanning(name)(p));
      after.runtime == before.runtime && after.Driver() == before.Driver()
  {
    hide Removed;
    hide ValidRuntime;
    hide Left;
    hide UniqueBy;
    hide Agree;
    var m := Without(p.spans, name)[0];
    assert m in p.spans && m != name && p.spans[0] in p.spans;
    assert AgreesWith(ps, p, m);
    ConcreteLeft(ps, name, m);
    SameSettings(p, NotSpanning(name)(p), FindPool(ps, p.spans[0]).value, FindPool(ps, m).value);
  }

  /** A virtual pool that loses its only member has to stand on its own. */
  lemma StandsAlone(ps: seq<Pool>, name: string, p: Pool)
    requires UniqueBy(ps, NameOfPool) && PoolOk(ps, p) && Without(p.spans, name) == []
    ensures PoolOk(Left(ps, name), NotSpanning(name)(p)) <==> ValidRuntime(p.runtime)
  {
  }

  lemma NothingLeft(s: seq<string>, item: string)
    ensures Without(s, item) == [] <==> forall x <- s :: x == item
  {
    var left := Without(s, item);
    if left != [] {
      assert left[0] in left;
    }
  }

  lemma TwoDiffer(s: seq<string>, item: string)
    requires Distinct(s) && |s| > 1
    ensures exists x <- s :: x != item
  {
    assert s[0] != s[1];
    if s[0] == item {
      assert s[1] in s;
    } else {
      assert s[0] in s;
    }
  }

  lemma OnlyMember(s: seq<string>, item: string)
    requires Distinct(s)
    ensures s != [] && Without(s, item) == [] <==> s == [item]
  {
    NothingLeft(s, item);
    if |s| > 1 {
      TwoDiffer(s, item);
    } else if |s| == 1 {
      assert s[0] in s && s == [s[0]];
    }
  }

  /** The pool could not run without the one it spans. */
  predicate LeansOn(p: Pool, name: string) {
    p.spans == [name] && !ValidRuntime(p.runtime)
  }

  lemma PoolLeft(ps: seq<Pool>, name: string, p: Pool)
    requires UniqueBy(ps, NameOfPool) && PoolOk(ps, p)
    ensures PoolOk(Left(ps, name), NotSpanning(name)(p)) <==> !LeansOn(p, name)
  {
    OnlyMember(p.spans, name);
    if Without(p.spans, name) == [] {
      StandsAlone(ps, name, p);
    } else {
      StillAgrees(ps, name, p);
    }
  }

  lemma PoolsLeft(c: Catalog, name: string)
    requires Valid(c)
    ensures PoolsOk(Left(c.pools, name)) <==> forall p <- c.pools :: !LeansOn(p, name)
  {
    var ps, qs := c.pools, Left(c.pools, name);
    LeftIsUnique(ps, name);
    if forall p <- ps :: !LeansOn(p, name) {
      forall q <- qs ensures PoolOk(qs, q) {
        LeftHolds(ps, name, q);
        var p :| p in ps && p.name != name && q == NotSpanning(name)(p);
        PoolLeft(ps, name, p);
      }
    } else {
      var p :| p in ps && LeansOn(p, name);
      LeanerIsAnother(ps, p, name);
      LeftHolds(ps, name, NotSpanning(name)(p));
      PoolLeft(ps, name, p);
    }
  }

  lemma LeanerIsAnother(ps: seq<Pool>, p: Pool, name: string)
    requires PoolsOk(ps) && p in ps && LeansOn(p, name)
    ensures p.name != name
  {
    assert PoolOk(ps, p) && name in p.spans;
    if p.name == name {
      FindOnly(ps, p);
    }
  }

  lemma NodesLeft(c: Catalog, name: string)
    requires Valid(c)
    ensures NodesOk(WithoutPool(c, name))
    ensures forall node :: Lists(WithoutPool(c, name).nodes, NameOfNode, node) <==> Lists(c.nodes, NameOfNode, node)
  {
    var nodes := WithoutPool(c, name).nodes;
    forall i, j | 0 <= i < j < |nodes| ensures NameOfNode(nodes[i]) != NameOfNode(nodes[j]) {
      assert NameOfNode(c.nodes[i]) != NameOfNode(c.nodes[j]);
    }
    forall n <- nodes ensures NodeOk(Left(c.pools, name), n) {
      var i :| 0 <= i < |nodes| && nodes[i] == n;
      assert NodeOk(c.pools, c.nodes[i]);
      if n.pool != "" {
        ConcreteLeft(c.pools, name, n.pool);
      }
    }
    forall node ensures Lists(nodes, NameOfNode, node) <==> Lists(c.nodes, NameOfNode, node) {
      SameNamesListed(c.nodes, nodes, NameOfNode, node);
    }
  }

  /** Removing a pool keeps a valid catalog valid exactly when no virtual pool
      both spans it alone and leaves its runtime to be inherited. */
  lemma RemovePoolKeepsValid(c: Catalog, name: string)
    requires Valid(c)
    ensures Valid(WithoutPool(c, name)) <==> forall p <- c.pools :: !LeansOn(p, name)
  {
    var c' := WithoutPool(c, name);
    PoolsLeft(c, name);
    NodesLeft(c, name);
    forall r <- c.quotas | RuleOk(c, r) && !InThePool(name)(r) ensures RuleOk(c', r) {
      FindLeft(c.pools, name, r.target);
    }
    RulesLeft(c, c', InThePool(name));
  }
}
