/** The one write path of the catalog: validated, stored and made live in one step. */
module CatalogControl {
  import opened Wrappers
  import opened Counting
  import opened Catalogs
  import opened Canonical
  import opened Validation
  import opened Normalizing
  import opened RecordFiles
  import opened Stores

  datatype Outcome = Rejected | Unchanged | NotSaved | Applied

  /** The catalog as authored, and the normalized one in force. */
  class LiveConfig {
    var raw: Catalog
    var live: Catalog

    /** raw is canonical and valid, and live is what normalizing makes of it. */
    ghost predicate Valid()
      reads this
    {
      Validation.Valid(raw) && IsClone(raw, raw) && live == Complete(raw)
    }

    constructor ()
      ensures Valid() && raw == EMPTY_CATALOG
    {
      raw, live := EMPTY_CATALOG, EMPTY_CATALOG;
    }

    /** Make a catalog live; a bad one is rejected and the previous one stays. */
    method SetCatalog(cat: Catalog) returns (ok: bool)
      requires Valid()
      modifies this
      ensures ok <==> Validation.Valid(cat)
      ensures Valid()
      ensures if ok then IsClone(cat, raw) else raw == old(raw) && live == old(live)
    {
      var n := Normalize(cat);
      if n.None? {
        return false;
      }
      raw := Clone(cat);
      live := n.value;
      ghost var d :| IsClone(cat, d) && live == Complete(d);
      CloneSettles(cat, raw, d);
      return true;
    }
  }

  /** A valid catalog has one clone, which is its own. */
  lemma CloneSettles(cat: Catalog, c: Catalog, d: Catalog)
    requires Validation.Valid(cat) && IsClone(cat, c) && IsClone(cat, d)
    ensures d == c && Validation.Valid(c) && IsClone(c, c)
  {
    ValidIsTidy(cat);
    assert SameCatalog(cat, cat);
    ClonesAgree(cat, cat, c, d);
    CloneIsAsValid(cat, c);
    TidiedClone(cat, c);
  }

  lemma TidiedClone(cat: Catalog, c: Catalog)
    requires IsClone(cat, c)
    ensures IsClone(c, c)
  {
    CloneIsTheSame(cat, c);
  }

  class CatalogScheduler {
    const cfg: LiveConfig
    const st: Store

    /** The store holds, up to order, what raw holds. */
    ghost predicate InSync()
      reads cfg, st
    {
      cfg.Valid() && st.Valid() && SameCatalog(CatalogRead(st.files), cfg.raw)
    }

    constructor (reliable: bool)
      ensures InSync() && fresh(cfg) && fresh(st) && CatalogIn(st.files) == None && cfg.raw == EMPTY_CATALOG
    {
      cfg := new LiveConfig();
      st := new Store(reliable);
    }

    /** Validate, store and activate a catalog. Applying the same one again
        does nothing; written says whether a write to the store succeeds. */
    method ApplyCatalog(cat: Catalog, written: bool) returns (outcome: Outcome)
      requires InSync() && (st.reliable ==> written)
      modifies cfg, st`files, st`kept, st`revision
      ensures InSync()
      ensures outcome == if !Validation.Valid(cat) then Rejected
                         else if SameCatalog(cat, old(cfg.raw)) then Unchanged
                         else if !written then NotSaved
                         else Applied
      ensures outcome != Applied ==>
        cfg.raw == old(cfg.raw) && cfg.live == old(cfg.live) && st.files == old(st.files) && st.revision == old(st.revision)
      ensures outcome == Applied ==>
        && CatalogIn(st.files) == Some(cat) && st.kept == Some(cat) && IsClone(cat, cfg.raw) && cfg.live == Complete(cfg.raw)
        && st.revision == old(st.revision) + 1
      ensures forall g | g != CATALOG_ID && g in old(st.files) :: g in st.files && st.files[g] == old(st.files)[g]
    {
      hide Mirrored;
      hide Lifecycle.Indexed;
      hide SameCatalog;
      hide IsClone;
      hide CatalogKept;
      hide Tidy;
      hide CompletedAll;
      hide Validation.Valid;
      var n := Normalize(cat);
      if n.None? {
        return Rejected;
      }
      ValidIsTidy(cat);
      var equal := Equal(cat, cfg.raw);
      if equal {
        return Unchanged;
      }
      var saved := st.SaveCatalog(cat, written);
      if !saved {
        return NotSaved;
      }
      var set_ := cfg.SetCatalog(cat);
      CloneIsTheSame(cat, cfg.raw);
      st.Notify();
      return Applied;
    }

    /** Make live what the store holds now, however it came there. */
    method ReloadCatalog() returns (ok: bool)
      requires cfg.Valid() && st.Valid()
      modifies cfg, st`revision
      ensures cfg.Valid() && st.Valid()
      ensures ok <==> Validation.Valid(CatalogRead(st.files))
      ensures ok ==> InSync()
      ensures !ok ==> cfg.raw == old(cfg.raw) && cfg.live == old(cfg.live)
    {
      hide Mirrored;
      hide SameCatalog;
      hide IsClone;
      hide CatalogKept;
      hide Validation.Valid;
      var stored := st.LoadCatalog();
      var cat := if stored.Some? then stored.value else EMPTY_CATALOG;
      ok := cfg.SetCatalog(cat);
      if ok {
        CloneIsTheSame(cat, cfg.raw);
        st.Notify();
      }
    }
  }

  lemma OnlyEmptyIsEmpty(c: Catalog)
    requires SameCatalog(EMPTY_CATALOG, c) || SameCatalog(c, EMPTY_CATALOG)
    ensures c == EMPTY_CATALOG
  {
    assert |multiset(c.nodes)| == 0 && |multiset(c.groups)| == 0 && |multiset(c.quotas)| == 0;
    assert |multiset(Mapped(c.users, Tidied))| == 0;
  }

  /** A record written to its file leaves the catalog in step with the store,
      unless it is named like the catalog file and the catalog is not empty. */
  lemma RecordWritten(raw: Catalog, files: map<string, Doc>, g: string, file: File)
    requires SameCatalog(CatalogRead(files), raw)
    ensures SameCatalog(CatalogRead(files[g := RecordDoc(file)]), raw) <==> g != CATALOG_ID || CatalogRead(files) == EMPTY_CATALOG
  {
    RecordSavedOverCatalog(files, g, file);
    if g == CATALOG_ID && SameCatalog(EMPTY_CATALOG, raw) {
      OnlyEmptyIsEmpty(raw);
      OnlyEmptyIsEmpty(CatalogRead(files));
    }
  }
}
