/** The store: records, their indexes and the record files behind them. */
module Stores {
  import opened Wrappers
  import opened Counting
  import opened Sorting
  import opened Catalogs
  import opened Model
  import opened Lifecycle
  import opened RecordFiles

  class Store {
    var byReg: map<string, Record>
    var byRun: map<string, Run>
    var byToken: map<string, string>
    var revision: nat
    // The files of the store's directory; if the backend is reliable, every write succeeds.
    var files: map<string, Doc>
    // The catalog saved last.
    ghost var kept: Option<Catalog>
    const reliable: bool
    // The store was not opened on older files: then they mirror it to the letter.
    ghost const exact: bool

    ghost function State(): StoreState
      reads this
    {
      StoreState(byReg, byRun, byToken)
    }

    ghost predicate Valid()
      reads this
    {
      Indexed(State()) && (reliable ==> Mirrored(State(), files, exact) && CatalogKept(byReg.Keys, files, kept))
    }

    /** A store on an empty backend. */
    constructor (reliable: bool)
      ensures Valid() && State() == EMPTY_STORE && this.reliable == reliable && files == map[] && kept == None
    {
      kept := None;
      byReg, byRun, byToken, revision, files := map[], map[], map[], 0, map[];
      this.reliable := reliable;
      exact := true;
    }

    /** Open a store on what a reliable backend holds: every spec and token is
        restored, and runs left in flight are queued again. s is the store the
        files were written from; a record the catalog was saved over is gone. */
    constructor Open(files: map<string, Doc>, reliable: bool, ghost s: StoreState, ghost wasExact: bool, ghost kept: Option<Catalog>)
      requires Indexed(s) && Mirrored(s, files, wasExact) && CatalogKept(s.regs.Keys, files, kept)
      ensures Valid() && this.reliable == reliable && this.files == files && this.kept == kept
      ensures State() == Apply(Readable(s, files), Restart)
      ensures State() == Apply(s, Restart) <==> !Overwritten(s, files)
      ensures !Overwritten(s, files) ==>
        && byReg == s.regs && byToken == s.tokens && byRun.Keys == s.runs.Keys
        && forall id <- s.runs :: byRun[id] == if s.runs[id].state in {Dispatched, Running}
                                               then s.runs[id].(state := Queued, dispatchedAt := None, startedAt := None)
                                               else s.runs[id]
    {
      hide Mirrored;
      hide Whole;
      hide RecordsOk;
      hide RunsOk;
      hide TokensOk;
      byReg, byRun, byToken, revision := map[], map[], map[], 0;
      this.files := files;
      this.reliable := reliable;
      this.kept := kept;
      exact := false;
      new;
      ghost var t := Readable(s, files);
      ReadableIsWhole(s, files, wasExact);
      LoadAll(t, wasExact);
      RestartKeepsIndexed(t);
      RestartKeepsMirror(t, files, wasExact);
      ReopeningForgets(s, files);
      RestartMeans(s);
      assert State() == Apply(t, Restart);
    }

    method LoadAll(ghost s: StoreState, ghost wasExact: bool)
      requires State() == EMPTY_STORE && Indexed(s) && Whole(s, files, wasExact)
      modifies this`byReg, this`byRun, this`byToken
      ensures State() == Apply(s, Restart)
    {
      hide IsPart;
      hide Indexed;
      hide Apply;
      ghost var t := Apply(s, Restart);
      ghost var done := {};
      NoPart(t);
      var rest := files.Keys;
      while rest != {}
        invariant rest <= files.Keys && done == set g | g in files && files[g].RecordDoc? && g !in rest
        invariant IsPart(State(), t, done)
      {
        var g :| g in rest;
        rest := rest - {g};
        if files[g].CatalogDoc? {
          continue;
        }
        assert FileMatches(s, files, g, wasExact);
        LoadRecord(files[g].file, s, g, done);
        done := done + {g};
      }
      assert done == s.regs.Keys;
      WholePart(State(), s);
    }

    method LoadRecord(f: File, ghost s: StoreState, ghost g: string, ghost done: set<string>)
      requires Indexed(s) && g in s.regs && g !in done && ListsKnownRuns(s, g) && Settled(f) == Settled(FileOf(s, g))
      requires IsPart(State(), Apply(s, Restart), done)
      modifies this`byReg, this`byRun, this`byToken
      ensures IsPart(State(), Apply(s, Restart), done + {g})
    {
      hide Apply;
      hide Indexed;
      hide IsPart;
      hide Settled;
      hide FileOf;
      hide TokensOfRecord;
      hide TokensOk;
      hide Restored;
      hide Resumes;
      ghost var t, ids, before := Apply(s, Restart), s.regs[g].runs, State();
      RestartedRecord(s, g, f);
      byReg := byReg[f.reg.id := Record(f.reg, IdsOf(f.runs))];
      var specs := SpecsByName(f.reg.suites);
      SpecsAreRestored(s, g, f, specs);
      LoadRuns(f.runs, specs, t, ids);
      LoadTokens(f.tokens, t, ids, before.runs);
      PartGrows(before, State(), s, done, g, f.tokens);
    }

    method LoadRuns(runs: seq<Run>, specs: map<string, SuiteSpec>, ghost t: StoreState, ghost ids: seq<string>)
      requires |runs| == |ids| && forall i | 0 <= i < |ids| :: Resumes(t, specs, runs[i], ids[i])
      modifies this`byRun
      ensures byRun == old(byRun) + Restored(t, ids, {})
    {
      hide Restored;
      hide Resumes;
      RestoredNone(t);
      assert ids[..0] == [];
      for i := 0 to |runs|
        invariant byRun == old(byRun) + Restored(t, ids[..i], {})
      {
        var r := runs[i];
        RestoredNext(old(byRun), t, ids, i, specs, r);
        r := r.(spec := if r.suite in specs then specs[r.suite] else NO_SPEC);
        if !r.state.Terminal() && r.state != Queued {
          r := r.(state := Queued, dispatchedAt := None, startedAt := None);
        }
        assert r == Resumed(runs[i], specs);
        byRun := byRun[r.id := r];
      }
      assert ids[..|runs|] == ids;
    }

    method LoadTokens(tokens: map<string, string>, ghost t: StoreState, ghost ids: seq<string>, ghost others: map<string, Run>)
      requires TokensOfRecord(t, ids, tokens) && TokensOk(t) && forall id <- ids :: id in t.runs
      requires byRun == others + Restored(t, ids, {})
      modifies this`byRun, this`byToken
      ensures byRun == others + Restored(t, ids, tokens.Keys)
      ensures byToken == old(byToken) + TokensFor(t, tokens.Keys)
    {
      hide Restored;
      hide TokensOfRecord;
      hide TokensOk;
      hide TokensFor;
      ghost var done := {};
      NoTokens(t);
      var rest := tokens.Keys;
      while rest != {}
        invariant rest + done == tokens.Keys && rest !! done
        invariant byRun == others + Restored(t, ids, done)
        invariant byToken == old(byToken) + TokensFor(t, done)
      {
        var k :| k in rest;
        var id := tokens[k];
        TokenIsRestored(others, t, ids, tokens, done, k);
        rest, done := rest - {k}, done + {k};
        RestoreToken(k, id);
      }
      assert done == tokens.Keys;
    }

    method RestoreToken(k: string, id: string)
      modifies this`byRun, this`byToken
      ensures byRun == if id in old(byRun) then old(byRun)[id := old(byRun)[id].(token := k)] else old(byRun)
      ensures byToken == if id in old(byRun) then old(byToken)[k := id] else old(byToken)
    {
      if id in byRun {
        byRun := byRun[id := byRun[id].(token := k)];
        byToken := byToken[k := id];
      }
    }

    /** Write one record's file. An unreliable backend may fail to. */
    method SaveRecord(g: string)
      requires ListsKnownRuns(State(), g)
      modifies this`files
      ensures files == old(files) || files == Rewritten(State(), old(files), g)
      ensures reliable ==> files == Rewritten(State(), old(files), g)
    {
      if * {
        if !reliable {
          return;
        }
      }
      var ids := byReg[g].runs;
      var runs: seq<Run>, tokens: map<string, string> := [], map[];
      for i := 0 to |ids|
        invariant runs == StoredRuns(State(), ids[..i])
        invariant tokens == TokenIndex(State(), ids[..i])
      {
        var r := byRun[ids[i]];
        assert ids[..i + 1][..i] == ids[..i];
        runs := runs + [Stored(r)];
        if r.token != "" {
          tokens := tokens[r.token := r.id];
        }
      }
      assert ids[..|ids|] == ids;
      files := files[g := RecordDoc(File(byReg[g].reg, runs, tokens))];
    }

    /** The stored pools and rules, None when never stored. */
    method LoadCatalog() returns (cat: Option<Catalog>)
      ensures cat == CatalogIn(files)
    {
      if CATALOG_ID !in files {
        return None;
      }
      match files[CATALOG_ID] {
        case CatalogDoc(c) => return Some(c);
        case RecordDoc(_) => return Some(EMPTY_CATALOG);
      }
    }

    /** Replace the stored catalog, or fail and leave it alone. */
    method SaveCatalog(cat: Catalog, written: bool) returns (ok: bool)
      requires Valid() && (reliable ==> written)
      modifies this`files, this`kept
      ensures Valid() && ok == written
      ensures files == if written then old(files)[CATALOG_ID := CatalogDoc(cat)] else old(files)
      ensures kept == if written then Some(cat) else old(kept)
    {
      hide FileMatches;
      hide Indexed;
      if written {
        CatalogKeepsMirror(State(), files, cat, reliable, exact);
        files := files[CATALOG_ID := CatalogDoc(cat)];
        kept := Some(cat);
      }
      return written;
    }

    /** A change was made outside the store's own mutations. */
    method Notify()
      modifies this`revision
      ensures revision == old(revision) + 1
    {
      revision := revision + 1;
    }

    /** Append a retry attempt; nothing happens without its regression. */
    method AddRun(r: Run)
      requires Valid()
      requires r.regressionId in byReg ==>
        FreshRun(State(), r) && r.spec in byReg[r.regressionId].reg.suites && r.suite == r.spec.name
      modifies this`byReg, this`byRun, this`byToken, this`files, this`revision
      ensures Valid()
      ensures State() == Lifecycle.AddRun(old(State()), r)
      ensures revision == old(revision) + if r.regressionId in old(byReg) then 1 else 0
    {
      hide Mirrored;
      hide Indexed;
      hide Saved;
      var g := r.regressionId;
      if g !in byReg {
        return;
      }
      AddRunIsSaved(State(), r, files, reliable, exact);
      byReg := byReg[g := byReg[g].(runs := byReg[g].runs + [r.id])];
      byRun := byRun[r.id := r];
      if r.token != "" {
        byToken := byToken[r.token := r.id];
      }
      ghost var s := State();
      SaveRecord(g);
      revision := revision + 1;
      assert State() == s;
    }

    /** Change one run; its identity is left alone. */
    method UpdateRun(id: string, fn: Run -> Run) returns (ok: bool)
      requires Valid()
      requires id in byRun ==> SameIdentity(fn(byRun[id]), byRun[id])
      modifies this`byReg, this`byRun, this`byToken, this`files, this`revision
      ensures Valid()
      ensures ok <==> id in old(byRun)
      ensures State() == if ok then PutRun(old(State()), fn(old(byRun)[id])) else old(State())
      ensures revision == old(revision) + if ok then 1 else 0
    {
      if id !in byRun {
        return false;
      }
      Put(fn(byRun[id]));
      return true;
    }

    method Put(r: Run)
      requires Valid() && r.id in byRun && SameIdentity(r, byRun[r.id])
      modifies this`byReg, this`byRun, this`byToken, this`files, this`revision
      ensures Valid() && State() == PutRun(old(State()), r) && revision == old(revision) + 1
    {
      hide Mirrored;
      hide Indexed;
      PutRunIsSaved(State(), r, files, reliable, exact);
      byRun := byRun[r.id := r];
      ghost var s := State();
      SaveRecord(r.regressionId);
      revision := revision + 1;
      assert State() == s;
    }

    /** Change one regression's header, but not its suites. */
    method UpdateRegression(g: string, fn: Regression -> Regression) returns (ok: bool)
      requires Valid()
      requires g in byReg ==> fn(byReg[g].reg).id == g && fn(byReg[g].reg).suites == byReg[g].reg.suites
      modifies this`byReg, this`byRun, this`byToken, this`files, this`revision
      ensures Valid()
      ensures ok <==> g in old(byReg)
      ensures byRun == old(byRun) && byToken == old(byToken)
      ensures byReg == if ok then old(byReg)[g := old(byReg)[g].(reg := fn(old(byReg)[g].reg))] else old(byReg)
      ensures revision == old(revision) + if ok then 1 else 0
    {
      if g !in byReg {
        return false;
      }
      PutHeader(g, fn(byReg[g].reg));
      return true;
    }

    method PutHeader(g: string, header: Regression)
      requires Valid() && g in byReg && header.id == g && header.suites == byReg[g].reg.suites
      modifies this`byReg, this`byRun, this`byToken, this`files, this`revision
      ensures Valid() && State() == Apply(old(State()), Rollup(g, header)) && revision == old(revision) + 1
    {
      hide Mirrored;
      hide RecordsOk;
      hide RunsOk;
      hide TokensOk;
      HeaderIsSaved(State(), g, header, files, reliable, exact);
      byReg := byReg[g := byReg[g].(reg := header)];
      ghost var s := State();
      SaveRecord(g);
      revision := revision + 1;
      assert State() == s;
    }

    /** Store a regression with its first runs, unless it exists or cannot be
        written; then nothing changes. */
    method Create(reg: Regression, runs: seq<Run>, written: bool) returns (ok: bool)
      requires Valid() && DistinctSuites(reg.suites) && Addable(AddRegression(State(), reg), reg.id, runs)
      requires reliable ==> written
      modifies this`byReg, this`byRun, this`byToken, this`files, this`revision
      ensures Valid()
      ensures ok <==> reg.id !in old(byReg) && written
      ensures State() == if ok then AddRuns(AddRegression(old(State()), reg), runs) else old(State())
      ensures revision == old(revision) + if ok then 1 else 0
    {
      hide Mirrored;
      hide RecordsOk;
      hide RunsOk;
      hide TokensOk;
      hide AddRuns;
      hide ExtendsRecords;
      hide ExtendsRuns;
      hide ExtendsTokens;
      if reg.id in byReg {
        return false;
      }
      RegressionIsSaved(State(), reg, runs, files, reliable, exact);
      Insert(reg, runs);
      if !written {
        Rollback(State(), reg, runs, old(State()));
        Remove(reg, runs);
        assert State() == old(State());
        return false;
      }
      ghost var s := State();
      SaveRecord(reg.id);
      revision := revision + 1;
      assert State() == s;
      return true;
    }

    method Insert(reg: Regression, runs: seq<Run>)
      requires forall r <- runs :: r.regressionId == reg.id
      modifies this`byReg, this`byRun, this`byToken
      ensures State() == AddRuns(AddRegression(old(State()), reg), runs)
    {
      hide AddRuns;
      ghost var m := AddRegression(State(), reg);
      NewRecord(State(), reg, runs);
      byReg := byReg[reg.id := Record(reg, IdsOf(runs))];
      NoneAdded(m);
      assert runs[..0] == [];
      for i := 0 to |runs|
        invariant byReg == m.regs[reg.id := Record(reg, IdsOf(runs))]
        invariant byRun == AddRuns(m, runs[..i]).runs && byToken == AddRuns(m, runs[..i]).tokens
      {
        var r := runs[i];
        NextAdded(m, runs, i);
        AddRunsRecord(m, reg.id, runs[..i]);
        byRun := byRun[r.id := r];
        if r.token != "" {
          byToken := byToken[r.token := r.id];
        }
      }
      assert runs[..|runs|] == runs;
    }

    method Remove(reg: Regression, runs: seq<Run>)
      modifies this`byReg, this`byRun, this`byToken
      ensures byReg == old(byReg) - {reg.id}
      ensures byRun == old(byRun) - Ids(runs) && byToken == old(byToken) - Tokens(runs)
    {
      byReg := byReg - {reg.id};
      for i := 0 to |runs|
        invariant byReg == old(byReg) - {reg.id}
        invariant byRun == old(byRun) - Ids(runs[..i]) && byToken == old(byToken) - Tokens(runs[..i])
      {
        RemoveOne(old(byRun), Ids(runs[..i]), runs[i].id);
        RemoveOne(old(byToken), Tokens(runs[..i]), runs[i].token);
        assert runs[..i + 1] == runs[..i] + [runs[i]];
        assert Ids(runs[..i + 1]) == Ids(runs[..i]) + {runs[i].id};
        assert Tokens(runs[..i + 1]) == Tokens(runs[..i]) + {runs[i].token};
        byRun := byRun - {runs[i].id};
        byToken := byToken - {runs[i].token};
      }
      assert runs[..|runs|] == runs;
    }

    /** Every run, oldest queue entry first. */
    method AllRuns() returns (out: seq<Run>)
      requires Valid()
      ensures Snapshot(State(), out)
    {
      out := Collect();
      ghost var listed := out;
      out := Sort(out, (a: Run, b: Run) => a.queuedAt <= b.queuedAt);
      UniqueByPermutes(listed, out, IdOf);
    }

    method Collect() returns (out: seq<Run>)
      requires Valid()
      ensures forall r <- out :: r.id in byRun && byRun[r.id] == r
      ensures forall i, j | 0 <= i < j < |out| :: out[i].id != out[j].id
      ensures forall id <- byRun :: byRun[id] in out
    {
      hide Mirrored;
      hide Collected;
      NothingCollected(State());
      hide Indexed;
      out := [];
      var rest := byReg.Keys;
      while rest != {}
        invariant rest <= byReg.Keys && Collected(byRun, out, rest)
      {
        var g :| g in rest;
        var more := RunsOf(g);
        CollectMore(byRun, out, rest, g, more);
        out := out + more;
        rest := rest - {g};
      }
      AllCollected(byRun, out);
    }

    method RunsOf(g: string) returns (out: seq<Run>)
      requires Valid() && g in byReg
      ensures forall r <- out :: r.id in byRun && byRun[r.id] == r && r.regressionId == g
      ensures forall i, j | 0 <= i < j < |out| :: out[i].id != out[j].id
      ensures forall id <- byRun | byRun[id].regressionId == g :: byRun[id] in out
      ensures ListsKnownRuns(State(), g) && out == RunsIn(State(), g)
    {
      hide Mirrored;
      var ids := byReg[g].runs;
      out := seq(|ids|, i requires 0 <= i < |ids| && ids[i] in byRun reads this => byRun[ids[i]]);
      forall id <- byRun | byRun[id].regressionId == g ensures byRun[id] in out {
        var i :| 0 <= i < |ids| && ids[i] == id;
        assert out[i] == byRun[id];
      }
    }

    /** An id no run has; random in the program. */
    method NewRunId() returns (id: string)
      ensures id !in byRun
    {
      id := Unused(byRun.Keys);
    }

    /** A token no run has; random in the program. */
    method NewToken() returns (token: string)
      ensures token != "" && token !in byToken
    {
      token := Unused(byToken.Keys);
    }
  }

  lemma NoneAdded(m: StoreState)
    ensures AddRuns(m, []) == m
  {
  }

  lemma NextAdded(m: StoreState, runs: seq<Run>, i: nat)
    requires i < |runs|
    ensures AddRuns(m, runs[..i + 1]) == Lifecycle.AddRun(AddRuns(m, runs[..i]), runs[i])
  {
    assert runs[..i + 1][..i] == runs[..i];
  }

  /** Saving a catalog leaves every record in its file but one of that name. */
  lemma CatalogKeepsMirror(s: StoreState, files: map<string, Doc>, cat: Catalog, mirrored: bool, exact: bool)
    requires mirrored ==> Mirrored(s, files, exact)
    ensures mirrored ==> Mirrored(s, files[CATALOG_ID := CatalogDoc(cat)], exact)
  {
    hide Indexed;
    var files' := files[CATALOG_ID := CatalogDoc(cat)];
    forall g <- s.regs | mirrored ensures FileMatches(s, files', g, exact) || CatalogAt(files', g) {
      assert FileMatches(s, files, g, exact) || CatalogAt(files, g);
    }
  }

  function IdOf(r: Run): string {
    r.id
  }

  /** out holds the runs of all records but those in rest, each once. */
  ghost predicate Collected(runs: map<string, Run>, out: seq<Run>, rest: set<string>) {
    && (forall r <- out :: r.id in runs && runs[r.id] == r && r.regressionId !in rest)
    && (forall i, j | 0 <= i < j < |out| :: out[i].id != out[j].id)
    && (forall id <- runs | runs[id].regressionId !in rest :: runs[id] in out)
  }

  lemma NothingCollected(s: StoreState)
    requires Indexed(s)
    ensures Collected(s.runs, [], s.regs.Keys)
  {
  }

  lemma CollectMore(runs: map<string, Run>, out: seq<Run>, rest: set<string>, g: string, more: seq<Run>)
    requires Collected(runs, out, rest) && g in rest
    requires forall r <- more :: r.id in runs && runs[r.id] == r && r.regressionId == g
    requires forall i, j | 0 <= i < j < |more| :: more[i].id != more[j].id
    requires forall id <- runs | runs[id].regressionId == g :: runs[id] in more
    ensures Collected(runs, out + more, rest - {g})
  {
    forall i, j | 0 <= i < |out| && 0 <= j < |more| ensures out[i].id != more[j].id {
      assert out[i] in out && more[j] in more;
    }
  }

  lemma AllCollected(runs: map<string, Run>, out: seq<Run>)
    requires Collected(runs, out, {})
    ensures forall r <- out :: r.id in runs && runs[r.id] == r
    ensures forall i, j | 0 <= i < j < |out| :: out[i].id != out[j].id
    ensures forall id <- runs :: runs[id] in out
  {
  }

  method SpecsByName(suites: seq<SuiteSpec>) returns (specs: map<string, SuiteSpec>)
    requires DistinctSuites(suites)
    ensures forall su <- suites :: su.name in specs && specs[su.name] == su
  {
    specs := map[];
    for i := 0 to |suites|
      invariant forall j | 0 <= j < i :: suites[j].name in specs && specs[suites[j].name] == suites[j]
    {
      assert forall j | 0 <= j < i :: suites[j].name != suites[i].name;
      specs := specs[suites[i].name := suites[i]];
    }
  }

  method Unused(keys: set<string>) returns (key: string)
    ensures key != "" && key !in keys
  {
    key := "r";
    var rest := keys;
    while rest != {}
      invariant key != "" && rest <= keys
      invariant forall k <- keys - rest :: |k| < |key|
    {
      var k :| k in rest;
      if |k| >= |key| {
        key := k + "r";
      }
      rest := rest - {k};
    }
  }

  lemma RemoveOne<V>(m: map<string, V>, gone: set<string>, k: string)
    ensures m - (gone + {k}) == m - gone - {k}
  {
  }

  /** Removing what was inserted restores the state. */
  lemma Rollback(s': StoreState, reg: Regression, rs: seq<Run>, s: StoreState)
    requires reg.id !in s.regs && s'.regs == s.regs[reg.id := Record(reg, IdsOf(rs))]
    requires Extends(AddRegression(s, reg), s', rs) && forall r <- rs :: r.id !in s.runs && r.token !in s.tokens
    ensures StoreState(s'.regs - {reg.id}, s'.runs - Ids(rs), s'.tokens - Tokens(rs)) == s
  {
  }
}
