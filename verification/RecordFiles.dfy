/** The record files, and what a store reopened on them knows. */
module RecordFiles {
  import opened Wrappers
  import opened Catalogs
  import opened Model
  import opened Lifecycle

  function IdsOf(rs: seq<Run>): seq<string> {
    seq(|rs|, i requires 0 <= i < |rs| => rs[i].id)
  }

  lemma {:induction false} AddRunsRecord(s: StoreState, g: string, rs: seq<Run>)
    requires g in s.regs && forall r <- rs :: r.regressionId == g
    ensures AddRuns(s, rs).regs == s.regs[g := s.regs[g].(runs := s.regs[g].runs + IdsOf(rs))]
  {
    if rs == [] {
      assert s.regs[g].runs + IdsOf(rs) == s.regs[g].runs;
    } else {
      AddRunsRecord(s, g, rs[..|rs| - 1]);
      assert IdsOf(rs) == IdsOf(rs[..|rs| - 1]) + [rs[|rs| - 1].id];
      assert s.regs[g].runs + IdsOf(rs) == (s.regs[g].runs + IdsOf(rs[..|rs| - 1])) + [rs[|rs| - 1].id];
    }
  }

  // A record as the file backend keeps it: runs without token and spec, which
  // are restored from the token index and the regression's suites.
  datatype File = File(reg: Regression, runs: seq<Run>, tokens: map<string, string>)

  // What a file of the store's directory holds, by its name without ".json":
  // a record under its regression's id, or the catalog under its own name.
  datatype Doc = RecordDoc(file: File) | CatalogDoc(cat: Catalog)

  const CATALOG_ID := "catalog"

  /** The catalog file, as it is loaded; a record found there has no pools or rules in it. */
  function CatalogIn(files: map<string, Doc>): Option<Catalog> {
    if CATALOG_ID !in files then None
    else if files[CATALOG_ID].CatalogDoc? then Some(files[CATALOG_ID].cat)
    else Some(EMPTY_CATALOG)
  }

  /** The catalog in force after loading; without one, it is empty. */
  function CatalogRead(files: map<string, Doc>): Catalog {
    if CatalogIn(files).Some? then CatalogIn(files).value else EMPTY_CATALOG
  }

  const NO_SPEC := SuiteSpec("", "", [], map[], 0, None, Unset)

  function Stored(r: Run): Run {
    r.(token := "", spec := NO_SPEC)
  }

  function StoredRuns(s: StoreState, ids: seq<string>): seq<Run>
    requires forall id <- ids :: id in s.runs
  {
    seq(|ids|, i requires 0 <= i < |ids| => Stored(s.runs[ids[i]]))
  }

  /** The token index of some runs. */
  function TokenIndex(s: StoreState, ids: seq<string>): map<string, string>
    requires forall id <- ids :: id in s.runs
  {
    if ids == [] then map[]
    else
      var rest, r := TokenIndex(s, ids[..|ids| - 1]), s.runs[ids[|ids| - 1]];
      if r.token == "" then rest else rest[r.token := r.id]
  }

  ghost predicate ListsKnownRuns(s: StoreState, g: string) {
    g in s.regs && forall id <- s.regs[g].runs :: id in s.runs
  }

  function FileOf(s: StoreState, g: string): File
    requires ListsKnownRuns(s, g)
  {
    File(s.regs[g].reg, StoredRuns(s, s.regs[g].runs), TokenIndex(s, s.regs[g].runs))
  }

  /** The file as a restart would read it: nothing in flight. */
  function Settled(f: File): File {
    f.(runs := seq(|f.runs|, i requires 0 <= i < |f.runs| => Requeued(f.runs[i])))
  }

  /** The file holds the record: exactly, or at least what a restart makes of it. */
  ghost predicate FileMatches(s: StoreState, files: map<string, Doc>, g: string, exact: bool) {
    && ListsKnownRuns(s, g) && g in files && files[g].RecordDoc?
    && if exact then files[g].file == FileOf(s, g) else Settled(files[g].file) == Settled(FileOf(s, g))
  }

  /** The catalog is in the file of this name. */
  predicate CatalogAt(files: map<string, Doc>, g: string) {
    g == CATALOG_ID && g in files && files[g].CatalogDoc?
  }

  /** Every record is in its file, but for one the catalog was saved over, and
      there are no other files but the catalog's. */
  ghost predicate Mirrored(s: StoreState, files: map<string, Doc>, exact: bool) {
    && (forall g <- s.regs :: FileMatches(s, files, g, exact) || CatalogAt(files, g))
    && (forall g <- files :: g in s.regs || CatalogAt(files, g))
  }

  /** The catalog file holds what was saved last, unless a record was saved over it. */
  ghost predicate CatalogKept(regs: set<string>, files: map<string, Doc>, kept: Option<Catalog>) {
    if kept.None? then !CatalogAt(files, CATALOG_ID)
    else CATALOG_ID in files && (files[CATALOG_ID] == CatalogDoc(kept.value) || (files[CATALOG_ID].RecordDoc? && CATALOG_ID in regs))
  }

  lemma {:induction false} TokenIndexDepends(s: StoreState, s': StoreState, ids: seq<string>)
    requires forall id <- ids :: id in s.runs && id in s'.runs
                                 && s'.runs[id].token == s.runs[id].token && s'.runs[id].id == s.runs[id].id
    ensures TokenIndex(s', ids) == TokenIndex(s, ids)
  {
    if ids != [] {
      TokenIndexDepends(s, s', ids[..|ids| - 1]);
    }
  }

  /** A record's file depends on the record and its runs only. */
  lemma FileDepends(s: StoreState, s': StoreState, g: string)
    requires ListsKnownRuns(s, g) && g in s'.regs && s'.regs[g] == s.regs[g]
    requires forall id <- s.regs[g].runs :: id in s'.runs && s'.runs[id] == s.runs[id]
    ensures ListsKnownRuns(s', g) && FileOf(s', g) == FileOf(s, g)
  {
    TokenIndexDepends(s, s', s.regs[g].runs);
  }

  /** Only record g and its runs differ. */
  ghost predicate ChangesOnly(s: StoreState, s': StoreState, g: string) {
    && s'.regs.Keys == s.regs.Keys + {g}
    && (forall h <- s.regs | h != g :: s'.regs[h] == s.regs[h])
    && (forall id <- s.runs | s.runs[id].regressionId != g :: id in s'.runs && s'.runs[id] == s.runs[id])
  }

  /** The record's file is rewritten. */
  function Rewritten(s: StoreState, files: map<string, Doc>, g: string): map<string, Doc>
    requires ListsKnownRuns(s, g)
  {
    files[g := RecordDoc(FileOf(s, g))]
  }

  /** Rewriting one record's file after changing only that record keeps the mirror. */
  lemma RewriteKeepsMirror(s: StoreState, s': StoreState, files: map<string, Doc>, g: string, exact: bool)
    requires RecordsOk(s) && Mirrored(s, files, exact) && ChangesOnly(s, s', g) && ListsKnownRuns(s', g)
    ensures Mirrored(s', Rewritten(s', files, g), exact)
  {
    hide ChangesOnly;
    hide FileMatches;
    hide RecordsOk;
    var files' := Rewritten(s', files, g);
    SameRecords(s, s', g);
    forall h <- s'.regs ensures FileMatches(s', files', h, exact) || CatalogAt(files', h) {
      RewriteKeepsFile(s, s', files, g, h, exact);
    }
  }

  lemma SameRecords(s: StoreState, s': StoreState, g: string)
    requires ChangesOnly(s, s', g)
    ensures s'.regs.Keys == s.regs.Keys + {g}
  {
  }

  lemma RewriteKeepsFile(s: StoreState, s': StoreState, files: map<string, Doc>, g: string, h: string, exact: bool)
    requires RecordsOk(s) && ChangesOnly(s, s', g) && ListsKnownRuns(s', g) && h in s'.regs
    requires h != g ==> FileMatches(s, files, h, exact) || CatalogAt(files, h)
    ensures FileMatches(s', Rewritten(s', files, g), h, exact) || CatalogAt(Rewritten(s', files, g), h)
  {
    hide FileOf;
    hide Settled;
    if h != g && FileMatches(s, files, h, exact) {
      FileDepends(s, s', h);
    }
  }

  lemma KnownRuns(s: StoreState, g: string)
    requires RecordsOk(s) && g in s.regs
    ensures ListsKnownRuns(s, g)
  {
  }

  /** The store after an operation on record g: still indexed, and, with the
      record's file rewritten, still mirrored. */
  ghost predicate Saved(s': StoreState, files: map<string, Doc>, g: string, mirrored: bool, exact: bool) {
    && Indexed(s') && ListsKnownRuns(s', g)
    && (mirrored ==> Mirrored(s', Rewritten(s', files, g), exact))
  }

  lemma IsSaved(s: StoreState, s': StoreState, files: map<string, Doc>, g: string, mirrored: bool, exact: bool)
    requires RecordsOk(s) && (mirrored ==> Mirrored(s, files, exact)) && Indexed(s') && ChangesOnly(s, s', g)
    ensures Saved(s', files, g, mirrored, exact)
  {
    KnownRuns(s', g);
    if mirrored {
      RewriteKeepsMirror(s, s', files, g, exact);
    }
  }

  lemma AddChangesOnly(s: StoreState, r: Run)
    requires r.id !in s.runs && r.regressionId in s.regs
    ensures ChangesOnly(s, Lifecycle.AddRun(s, r), r.regressionId)
  {
  }

  lemma PutChangesOnly(s: StoreState, r: Run)
    requires r.id in s.runs && r.regressionId == s.runs[r.id].regressionId && r.regressionId in s.regs
    ensures ChangesOnly(s, PutRun(s, r), r.regressionId)
  {
  }

  lemma ExtensionChangesOnly(s: StoreState, reg: Regression, s': StoreState, rs: seq<Run>)
    requires reg.id !in s.regs && Extends(AddRegression(s, reg), s', rs)
    requires s'.regs == s.regs[reg.id := Record(reg, IdsOf(rs))]
    ensures ChangesOnly(s, s', reg.id)
  {
  }

  lemma AddRunIsSaved(s: StoreState, r: Run, files: map<string, Doc>, mirrored: bool, exact: bool)
    requires Indexed(s) && FreshRun(s, r) && (mirrored ==> Mirrored(s, files, exact))
    requires r.regressionId in s.regs && r.spec in s.regs[r.regressionId].reg.suites && r.suite == r.spec.name
    ensures Saved(Lifecycle.AddRun(s, r), files, r.regressionId, mirrored, exact)
  {
    AddKeepsIndexed(s, r);
    AddChangesOnly(s, r);
    IsSaved(s, Lifecycle.AddRun(s, r), files, r.regressionId, mirrored, exact);
  }

  lemma PutRunIsSaved(s: StoreState, r: Run, files: map<string, Doc>, mirrored: bool, exact: bool)
    requires Indexed(s) && r.id in s.runs && SameIdentity(r, s.runs[r.id]) && (mirrored ==> Mirrored(s, files, exact))
    ensures Saved(PutRun(s, r), files, r.regressionId, mirrored, exact)
  {
    PutKeepsIndexed(s, r);
    PutChangesOnly(s, r);
    IsSaved(s, PutRun(s, r), files, r.regressionId, mirrored, exact);
  }

  lemma HeaderIsSaved(s: StoreState, g: string, header: Regression, files: map<string, Doc>, mirrored: bool, exact: bool)
    requires Indexed(s) && g in s.regs && (mirrored ==> Mirrored(s, files, exact))
    requires header.id == g && header.suites == s.regs[g].reg.suites
    ensures Saved(Apply(s, Rollup(g, header)), files, g, mirrored, exact)
  {
    RollupKeepsIndexed(s, g, header);
    IsSaved(s, Apply(s, Rollup(g, header)), files, g, mirrored, exact);
  }

  lemma RegressionIsSaved(s: StoreState, reg: Regression, runs: seq<Run>, files: map<string, Doc>, mirrored: bool, exact: bool)
    requires Indexed(s) && reg.id !in s.regs && DistinctSuites(reg.suites) && (mirrored ==> Mirrored(s, files, exact))
    requires Addable(AddRegression(s, reg), reg.id, runs)
    ensures var s' := AddRuns(AddRegression(s, reg), runs);
      Saved(s', files, reg.id, mirrored, exact) && Extends(AddRegression(s, reg), s', runs)
      && s'.regs == s.regs[reg.id := Record(reg, IdsOf(runs))]
  {
    var m := AddRegression(s, reg);
    RegistrationKeepsIndexed(s, reg);
    AddRunsKeepsIndexed(m, reg.id, runs);
    NewRecord(s, reg, runs);
    ExtensionChangesOnly(s, reg, AddRuns(m, runs), runs);
    IsSaved(s, AddRuns(m, runs), files, reg.id, mirrored, exact);
  }

  lemma NewRecord(s: StoreState, reg: Regression, runs: seq<Run>)
    requires forall r <- runs :: r.regressionId == reg.id
    ensures AddRuns(AddRegression(s, reg), runs).regs == s.regs[reg.id := Record(reg, IdsOf(runs))]
  {
    AddRunsRecord(AddRegression(s, reg), reg.id, runs);
    assert [] + IdsOf(runs) == IdsOf(runs);
  }

  /** A regression's runs, in the order they were created. */
  function RunsIn(s: StoreState, g: string): seq<Run>
    requires ListsKnownRuns(s, g)
  {
    seq(|s.regs[g].runs|, i requires 0 <= i < |s.regs[g].runs| => s.runs[s.regs[g].runs[i]])
  }

  /** A snapshot of the store's runs, oldest queue entry first. */
  ghost predicate Snapshot(s: StoreState, rs: seq<Run>) {
    && (forall r <- rs :: r.id in s.runs && s.runs[r.id] == r)
    && (forall i, j | 0 <= i < j < |rs| :: rs[i].id != rs[j].id)
    && (forall id <- s.runs :: s.runs[id] in rs)
    && (forall i, j | 0 <= i < j < |rs| :: rs[i].queuedAt <= rs[j].queuedAt)
  }

  // --------------------------------------------------------------- reopening

  ghost function PartRegs(t: StoreState, done: set<string>): map<string, Record> {
    map g | g in t.regs && g in done :: t.regs[g]
  }

  ghost function PartRuns(t: StoreState, done: set<string>): map<string, Run> {
    map id | id in t.runs && t.runs[id].regressionId in done :: t.runs[id]
  }

  ghost function PartTokens(t: StoreState, done: set<string>): map<string, string> {
    map k | k in t.tokens && t.tokens[k] in t.runs && t.runs[t.tokens[k]].regressionId in done :: t.tokens[k]
  }

  /** Some runs, as they are while only these tokens have been restored. */
  ghost function Restored(t: StoreState, ids: seq<string>, tokens: set<string>): map<string, Run> {
    map id | id in ids && id in t.runs :: if t.runs[id].token in tokens then t.runs[id] else t.runs[id].(token := "")
  }

  ghost function TokensFor(t: StoreState, tokens: set<string>): map<string, string> {
    map k | k in tokens && k in t.tokens :: t.tokens[k]
  }

  /** A run as it is loaded: its spec found by name, and nothing in flight. */
  function Resumed(q: Run, specs: map<string, SuiteSpec>): Run {
    Requeued(q.(spec := if q.suite in specs then specs[q.suite] else NO_SPEC))
  }

  ghost predicate Resumes(t: StoreState, specs: map<string, SuiteSpec>, q: Run, id: string) {
    id in t.runs && q.id == id && Resumed(q, specs) == t.runs[id].(token := "")
  }

  /** ids are the runs of record g. */
  ghost predicate RunsOfRecord(t: StoreState, g: string, ids: seq<string>) {
    && (forall id <- ids :: id in t.runs && t.runs[id].regressionId == g)
    && (forall id <- t.runs | t.runs[id].regressionId == g :: id in ids)
  }

  /** tokens index the runs ids by their tokens. */
  ghost predicate TokensOfRecord(t: StoreState, ids: seq<string>, tokens: map<string, string>) {
    && (forall k <- tokens :: k in t.tokens && t.tokens[k] == tokens[k] && tokens[k] in ids && tokens[k] in t.runs && t.runs[tokens[k]].token == k)
    && (forall id <- ids | id in t.runs && t.runs[id].token != "" :: t.runs[id].token in tokens)
    && (forall k <- t.tokens | t.tokens[k] in ids :: k in tokens)
  }

  lemma PartRegsGrow(t: StoreState, done: set<string>, g: string)
    requires g in t.regs
    ensures PartRegs(t, done + {g}) == PartRegs(t, done)[g := t.regs[g]]
  {
  }

  lemma PartRunsGrow(t: StoreState, done: set<string>, g: string, ids: seq<string>, tokens: map<string, string>)
    requires g !in done && RunsOfRecord(t, g, ids) && TokensOfRecord(t, ids, tokens)
    ensures PartRuns(t, done + {g}) == PartRuns(t, done) + Restored(t, ids, tokens.Keys)
  {
    forall id <- t.runs | t.runs[id].regressionId == g
      ensures id in Restored(t, ids, tokens.Keys) && Restored(t, ids, tokens.Keys)[id] == t.runs[id]
    {
      assert id in ids;
    }
  }

  lemma PartTokensGrow(t: StoreState, done: set<string>, g: string, ids: seq<string>, tokens: map<string, string>)
    requires g !in done && RunsOfRecord(t, g, ids) && TokensOfRecord(t, ids, tokens)
    ensures PartTokens(t, done + {g}) == PartTokens(t, done) + TokensFor(t, tokens.Keys)
  {
  }

  /** p holds the records of t in done, with their runs and tokens. */
  ghost predicate IsPart(p: StoreState, t: StoreState, done: set<string>) {
    p.regs == PartRegs(t, done) && p.runs == PartRuns(t, done) && p.tokens == PartTokens(t, done)
  }

  lemma NoPart(t: StoreState)
    ensures IsPart(EMPTY_STORE, t, {})
  {
    assert PartRegs(t, {}) == map[];
    assert PartRuns(t, {}) == map[];
    assert PartTokens(t, {}) == map[];
  }

  lemma WholePart(p: StoreState, s: StoreState)
    requires Indexed(s) && IsPart(p, Apply(s, Restart), s.regs.Keys)
    ensures p == Apply(s, Restart)
  {
    WholeRegs(Apply(s, Restart));
    WholeRuns(s);
    WholeTokens(s);
  }

  lemma WholeRegs(t: StoreState)
    ensures PartRegs(t, t.regs.Keys) == t.regs
  {
  }

  lemma WholeRuns(s: StoreState)
    requires RunsOk(s)
    ensures PartRuns(Apply(s, Restart), s.regs.Keys) == Apply(s, Restart).runs
  {
  }

  lemma WholeTokens(s: StoreState)
    requires RunsOk(s) && TokensOk(s)
    ensures PartTokens(Apply(s, Restart), s.regs.Keys) == s.tokens
  {
  }

  /** Once a record, its runs and their tokens are in, the record is done. */
  lemma PartGrows(p: StoreState, p': StoreState, s: StoreState, done: set<string>, g: string, tokens: map<string, string>)
    requires Indexed(s) && g in s.regs && g !in done && tokens == TokenIndex(s, s.regs[g].runs)
    requires IsPart(p, Apply(s, Restart), done)
    requires p'.regs == p.regs[g := s.regs[g]]
    requires p'.runs == p.runs + Restored(Apply(s, Restart), s.regs[g].runs, tokens.Keys)
    requires p'.tokens == p.tokens + TokensFor(Apply(s, Restart), tokens.Keys)
    ensures IsPart(p', Apply(s, Restart), done + {g})
  {
    hide PartRegs;
    hide PartRuns;
    hide PartTokens;
    hide Restored;
    hide TokensFor;
    var t, ids := Apply(s, Restart), s.regs[g].runs;
    RestartedRuns(s, g);
    RestartedTokens(s, g);
    PartRegsGrow(t, done, g);
    PartRunsGrow(t, done, g, ids, tokens);
    PartTokensGrow(t, done, g, ids, tokens);
  }

  lemma NoTokens(t: StoreState)
    ensures TokensFor(t, {}) == map[]
  {
  }

  lemma RestoredNone(t: StoreState)
    ensures Restored(t, [], {}) == map[]
  {
  }

  lemma RestoredNext(others: map<string, Run>, t: StoreState, ids: seq<string>, i: nat, specs: map<string, SuiteSpec>, q: Run)
    requires i < |ids| && Resumes(t, specs, q, ids[i])
    ensures others + Restored(t, ids[..i + 1], {}) == (others + Restored(t, ids[..i], {}))[q.id := Resumed(q, specs)]
  {
    var before, after := Restored(t, ids[..i], {}), Restored(t, ids[..i + 1], {});
    assert ids[..i + 1] == ids[..i] + [ids[i]];
    assert after == before[q.id := Resumed(q, specs)];
  }

  lemma TokenIsRestored(others: map<string, Run>, t: StoreState, ids: seq<string>, tokens: map<string, string>, done: set<string>, k: string)
    requires TokensOfRecord(t, ids, tokens) && TokensOk(t) && (forall id <- ids :: id in t.runs) && k in tokens && k !in done
    ensures tokens[k] in Restored(t, ids, done)
    ensures others + Restored(t, ids, done + {k})
         == (others + Restored(t, ids, done))[tokens[k] := (others + Restored(t, ids, done))[tokens[k]].(token := k)]
    ensures TokensFor(t, done + {k}) == TokensFor(t, done)[k := tokens[k]]
  {
    var before, after := Restored(t, ids, done), Restored(t, ids, done + {k});
    var id := tokens[k];
    assert after[id] == before[id].(token := k);
    assert after == before[id := after[id]];
  }

  /** The settled file tells the record and, run by run, what a restart makes of it. */
  lemma SettledRuns(s: StoreState, g: string, f: File)
    requires ListsKnownRuns(s, g) && Settled(f) == Settled(FileOf(s, g))
    requires forall id <- s.regs[g].runs :: s.runs[id].id == id
    ensures f.reg == s.regs[g].reg && f.tokens == TokenIndex(s, s.regs[g].runs)
    ensures |f.runs| == |s.regs[g].runs|
    ensures forall i {:trigger f.runs[i]} | 0 <= i < |f.runs| :: Requeued(f.runs[i]) == Requeued(Stored(s.runs[s.regs[g].runs[i]]))
    ensures Record(f.reg, IdsOf(f.runs)) == s.regs[g]
  {
    var a, b := Settled(f), Settled(FileOf(s, g));
    assert |a.runs| == |b.runs|;
    forall i | 0 <= i < |f.runs| ensures Requeued(f.runs[i]) == Requeued(Stored(s.runs[s.regs[g].runs[i]])) {
      assert a.runs[i] == b.runs[i];
    }
    assert IdsOf(f.runs) == s.regs[g].runs;
  }

  lemma SpecIsRestored(s: StoreState, g: string, id: string, specs: map<string, SuiteSpec>, q: Run)
    requires RunsOk(s) && g in s.regs && id in s.runs && s.runs[id].regressionId == g
    requires forall su <- s.regs[g].reg.suites :: su.name in specs && specs[su.name] == su
    requires Requeued(q) == Requeued(Stored(s.runs[id]))
    ensures Resumes(Apply(s, Restart), specs, q, id)
  {
    assert q.suite == s.runs[id].spec.name;
  }

  /** A record's token index lists exactly the tokens of its runs. */
  lemma {:induction false} TokenIndexIs(s: StoreState, ids: seq<string>)
    requires RunsOk(s) && TokensOk(s) && forall id <- ids :: id in s.runs
    ensures forall k <- TokenIndex(s, ids) :: k in s.tokens && TokenIndex(s, ids)[k] == s.tokens[k] && s.tokens[k] in ids
    ensures forall id <- ids :: s.runs[id].token != "" ==> s.runs[id].token in TokenIndex(s, ids)
  {
    if ids != [] {
      TokenIndexIs(s, ids[..|ids| - 1]);
      assert ids == ids[..|ids| - 1] + [ids[|ids| - 1]];
    }
  }

  lemma RestartedTokens(s: StoreState, g: string)
    requires Indexed(s) && g in s.regs
    ensures TokensOfRecord(Apply(s, Restart), s.regs[g].runs, TokenIndex(s, s.regs[g].runs))
    ensures TokensOk(Apply(s, Restart))
  {
    TokenIndexIs(s, s.regs[g].runs);
    RestartKeepsTokens(s);
    RestartedIndex(s, s.regs[g].runs, TokenIndex(s, s.regs[g].runs));
  }

  lemma RestartedIndex(s: StoreState, ids: seq<string>, tokens: map<string, string>)
    requires TokensOk(s)
    requires forall k <- tokens :: k in s.tokens && tokens[k] == s.tokens[k] && s.tokens[k] in ids
    requires forall id <- ids :: id in s.runs && (s.runs[id].token != "" ==> s.runs[id].token in tokens)
    ensures TokensOfRecord(Apply(s, Restart), ids, tokens)
  {
  }

  lemma RestartedRuns(s: StoreState, g: string)
    requires RecordsOk(s) && RunsOk(s) && g in s.regs
    ensures RunsOfRecord(Apply(s, Restart), g, s.regs[g].runs)
  {
  }

  lemma RestartedRecord(s: StoreState, g: string, f: File)
    requires Indexed(s) && g in s.regs && ListsKnownRuns(s, g) && Settled(f) == Settled(FileOf(s, g))
    ensures f.reg.id == g && DistinctSuites(f.reg.suites) && Record(f.reg, IdsOf(f.runs)) == s.regs[g]
    ensures f.tokens == TokenIndex(s, s.regs[g].runs) && |f.runs| == |s.regs[g].runs|
    ensures TokensOfRecord(Apply(s, Restart), s.regs[g].runs, f.tokens) && TokensOk(Apply(s, Restart))
    ensures forall id <- s.regs[g].runs :: id in Apply(s, Restart).runs
  {
    hide TokenIndex;
    hide Settled;
    hide TokensOk;
    hide TokensOfRecord;
    SettledRuns(s, g, f);
    RestartedTokens(s, g);
  }

  lemma SpecsAreRestored(s: StoreState, g: string, f: File, specs: map<string, SuiteSpec>)
    requires Indexed(s) && g in s.regs && ListsKnownRuns(s, g) && Settled(f) == Settled(FileOf(s, g))
    requires forall su <- f.reg.suites :: su.name in specs && specs[su.name] == su
    ensures |f.runs| == |s.regs[g].runs|
    ensures forall i | 0 <= i < |f.runs| :: Resumes(Apply(s, Restart), specs, f.runs[i], s.regs[g].runs[i])
  {
    hide TokenIndex;
    hide Settled;
    hide TokensOk;
    hide Resumes;
    SettledRuns(s, g, f);
    forall i | 0 <= i < |f.runs| ensures Resumes(Apply(s, Restart), specs, f.runs[i], s.regs[g].runs[i]) {
      SpecIsRestored(s, g, s.regs[g].runs[i], specs, f.runs[i]);
    }
  }

  /** A run that was dispatched or running is queued again, without those times;
      any other is as it was. */
  lemma RestartMeans(s: StoreState)
    ensures var t := Apply(s, Restart);
      && t.regs == s.regs && t.tokens == s.tokens && t.runs.Keys == s.runs.Keys
      && forall id <- s.runs :: t.runs[id] == if s.runs[id].state in {Dispatched, Running}
                                              then s.runs[id].(state := Queued, dispatchedAt := None, startedAt := None)
                                              else s.runs[id]
  {
  }

  // -------------------------------------------------- a record named catalog

  /** The catalog was saved over the record of its name. */
  predicate Overwritten(s: StoreState, files: map<string, Doc>) {
    CATALOG_ID in s.regs && CatalogAt(files, CATALOG_ID)
  }

  /** The store without the record of g, its runs and their tokens. */
  function Without(s: StoreState, g: string): StoreState {
    StoreState(s.regs - {g},
               map id | id in s.runs && s.runs[id].regressionId != g :: s.runs[id],
               map t | t in s.tokens && !(s.tokens[t] in s.runs && s.runs[s.tokens[t]].regressionId == g) :: s.tokens[t])
  }

  /** What of the store can be read back from the files. */
  function Readable(s: StoreState, files: map<string, Doc>): StoreState {
    if Overwritten(s, files) then Without(s, CATALOG_ID) else s
  }

  lemma WithoutKeepsRecords(s: StoreState, g: string)
    requires RecordsOk(s)
    ensures RecordsOk(Without(s, g))
  {
  }

  lemma WithoutKeepsRuns(s: StoreState, g: string)
    requires RunsOk(s)
    ensures RunsOk(Without(s, g))
  {
  }

  lemma WithoutKeepsTokens(s: StoreState, g: string)
    requires TokensOk(s)
    ensures TokensOk(Without(s, g))
  {
  }

  lemma WithoutIsIndexed(s: StoreState, g: string)
    requires Indexed(s)
    ensures Indexed(Without(s, g))
  {
    WithoutKeepsRecords(s, g);
    WithoutKeepsRuns(s, g);
    WithoutKeepsTokens(s, g);
  }

  /** Every record is in its file, and every record file is there for one. */
  ghost predicate Whole(s: StoreState, files: map<string, Doc>, exact: bool) {
    && (forall g <- s.regs :: FileMatches(s, files, g, exact))
    && (forall g <- files | files[g].RecordDoc? :: g in s.regs)
  }

  lemma ReadableIsWhole(s: StoreState, files: map<string, Doc>, exact: bool)
    requires Indexed(s) && Mirrored(s, files, exact)
    ensures Indexed(Readable(s, files)) && Whole(Readable(s, files), files, exact) && Mirrored(Readable(s, files), files, exact)
  {
    hide RunsOk;
    hide TokensOk;
    if Overwritten(s, files) {
      var t := Without(s, CATALOG_ID);
      WithoutIsIndexed(s, CATALOG_ID);
      forall g <- t.regs ensures FileMatches(t, files, g, exact) {
        FileDepends(s, t, g);
      }
    }
  }

  /** Reopening brings everything back exactly when no record is overwritten. */
  lemma ReopeningForgets(s: StoreState, files: map<string, Doc>)
    ensures Apply(Readable(s, files), Restart) == Apply(s, Restart) <==> !Overwritten(s, files)
  {
    if Overwritten(s, files) {
      assert CATALOG_ID !in Apply(Readable(s, files), Restart).regs;
      assert CATALOG_ID in Apply(s, Restart).regs;
    }
  }

  /** The files hold the records and the catalog alike. */
  ghost predicate Faithful(s: StoreState, files: map<string, Doc>, exact: bool, kept: Option<Catalog>) {
    Whole(s, files, exact) && CatalogRead(files) == if kept.Some? then kept.value else EMPTY_CATALOG
  }

  /** That is so if and only if no regression is named like the catalog file
      while a catalog is stored; or the stored one is empty, and the record was
      written over it. */
  lemma FaithfulUnlessNamedCatalog(s: StoreState, files: map<string, Doc>, exact: bool, kept: Option<Catalog>)
    requires Mirrored(s, files, exact) && CatalogKept(s.regs.Keys, files, kept)
    ensures Faithful(s, files, exact, kept) <==>
            (CATALOG_ID in s.regs && kept.Some? ==> kept.value == EMPTY_CATALOG && files[CATALOG_ID].RecordDoc?)
  {
  }

  /** Saving a catalog over a record makes reopening forget it. */
  lemma CatalogSavedOverRecord(s: StoreState, files: map<string, Doc>, cat: Catalog)
    requires CATALOG_ID in s.regs
    ensures var files' := files[CATALOG_ID := CatalogDoc(cat)];
      Overwritten(s, files') && CATALOG_ID !in Apply(Readable(s, files'), Restart).regs
  {
  }

  /** A record's file leaves the catalog read as it was, unless it is named like
      it: then an empty one is read. */
  lemma RecordSavedOverCatalog(files: map<string, Doc>, g: string, file: File)
    ensures CatalogRead(files[g := RecordDoc(file)]) == CatalogRead(files) <==> g != CATALOG_ID || CatalogRead(files) == EMPTY_CATALOG
    ensures g == CATALOG_ID ==> CatalogRead(files[g := RecordDoc(file)]) == EMPTY_CATALOG
  {
  }

  lemma RestartKeepsMirror(s: StoreState, files: map<string, Doc>, exact: bool)
    requires Indexed(s) && Mirrored(s, files, exact)
    ensures Mirrored(Apply(s, Restart), files, false)
  {
    var t := Apply(s, Restart);
    forall g <- t.regs ensures FileMatches(t, files, g, false) || CatalogAt(files, g) {
      if FileMatches(s, files, g, exact) {
        RestartSettles(s, g);
      }
    }
  }

  lemma RestartSettles(s: StoreState, g: string)
    requires ListsKnownRuns(s, g)
    ensures ListsKnownRuns(Apply(s, Restart), g)
    ensures Settled(FileOf(Apply(s, Restart), g)) == Settled(FileOf(s, g))
  {
    var t := Apply(s, Restart);
    TokenIndexDepends(s, t, s.regs[g].runs);
    assert Settled(FileOf(t, g)).runs == Settled(FileOf(s, g)).runs;
  }
}
