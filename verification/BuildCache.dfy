/** The node's build cache: any number of processes that want one build, over
    one lock file, one staging directory and one entry. Each file operation is a step. */
module BuildCache {
  import opened Wrappers

  // What was unpacked, in what format, from which bytes; whole unless unpacking failed.
  datatype Payload = Payload(bytes: string, format: string, whole: bool)

  // A directory of the cache: the download, the payload and the .ready marker.
  datatype Directory = Directory(download: Option<string>, payload: Option<Payload>, ready: Option<string>)

  const EMPTY_DIRECTORY := Directory(None, None, None)

  // Where a process is in Ensure.
  datatype Stage =
    | Looking                       // before the first look at the marker
    | Contending                    // about to create the lock file
    | Stealing                      // judged the lock file stale: about to remove it
    | Waiting                       // the lock was taken: polling the marker
    | Rechecking                    // holds the lock, about to look again
    | ClearingStaging               // found nothing: about to remove leftovers
    | ClearingEntry
    | MakingStaging
    | Downloading
    | Verifying(sum: string)        // downloaded, with this checksum
    | Unpacking(sum: string)
    | Tidying(sum: string)          // about to remove the download
    | Marking(sum: string)          // about to write the marker
    | Publishing(sum: string)       // about to rename staging to the entry
    | Releasing(found: bool)        // about to remove the lock file
    | Returned                      // with the path of the payload
    | Failed
    | Crashed

  // The cache directory and the processes at work in it.
  datatype CacheState = CacheState(
    lock: bool,
    staging: Option<Directory>,
    entry: Option<Directory>,
    procs: map<nat, Stage>)

  // The declared checksum, and the format and name rules of the build; sha is the checksum function.
  datatype Build = Build(want: string, format: string, sha: string -> string)

  datatype Step =
    | Look(p: nat)
    | Acquire(p: nat)
    | Poll(p: nat)
    | GiveUp(p: nat)                               // timeout or cancellation while waiting
    | Recheck(p: nat)
    | ClearStaging(p: nat)
    | ClearEntry(p: nat)
    | MakeStaging(p: nat)
    | Download(p: nat, bytes: string)
    | Verify(p: nat)
    | Unpack(p: nat)
    | Tidy(p: nat)
    | Mark(p: nat)
    | Publish(p: nat)
    | Fault(p: nat, left: Option<Directory>)       // a file operation of the holder fails, leaving this in staging
    | Release(p: nat)
    | Crash(p: nat, left: Option<Directory>)       // the process dies, possibly in the middle of an operation
    | Judge(p: nat)                                // the lock file is found, and old enough to be stale
    | Steal(p: nat)                                // it is removed, to try again

  function Fold(s: string): string {
    if s == "" then "" else [if 'A' <= s[0] <= 'Z' then 'a' + (s[0] - 'A') else s[0]] + Fold(s[1..])
  }

  predicate Matches(sum: string, want: string) {
    Fold(sum) == Fold(want)
  }

  /** The same letter in two cases, or the same character. */
  predicate SameButCase(a: char, b: char) {
    a == b || ('A' <= a <= 'Z' && b as int == a as int + 32) || ('A' <= b <= 'Z' && a as int == b as int + 32)
  }

  /** A match is of equal length, and differs in the case of letters only. */
  lemma {:induction false} MatchesMeans(sum: string, want: string)
    ensures Matches(sum, want) <==> |sum| == |want| && forall i | 0 <= i < |sum| :: SameButCase(sum[i], want[i])
  {
    if sum != "" && want != "" {
      MatchesMeans(sum[1..], want[1..]);
      assert Fold(sum)[0] == Fold(want)[0] <==> SameButCase(sum[0], want[0]);
      assert Fold(sum)[1..] == Fold(sum[1..]) && Fold(want)[1..] == Fold(want[1..]);
      if |sum| == |want| && forall i | 0 <= i < |sum| :: SameButCase(sum[i], want[i]) {
        assert forall i | 0 <= i < |sum[1..]| :: SameButCase(sum[1..][i], want[1..][i]);
        assert Fold(sum) == [Fold(sum)[0]] + Fold(sum)[1..] && Fold(want) == [Fold(want)[0]] + Fold(want)[1..];
      }
      if Matches(sum, want) {
        forall i | 0 <= i < |sum| ensures SameButCase(sum[i], want[i]) {
          if i > 0 {
            assert SameButCase(sum[1..][i - 1], want[1..][i - 1]);
          }
        }
      }
    }
  }

  /** They are of different lengths, or at some place differ in more than the case of a letter. */
  predicate Differs(sum: string, want: string) {
    |sum| != |want| || exists i | 0 <= i < |sum| :: !SameButCase(sum[i], want[i])
  }

  predicate LowerCase(s: string) {
    forall c <- s :: !('A' <= c <= 'Z')
  }

  lemma LowerCaseMatch(sum: string, want: string)
    requires LowerCase(sum) && LowerCase(want)
    ensures Matches(sum, want) <==> sum == want
  {
    MatchesMeans(sum, want);
    if Matches(sum, want) {
      forall i | 0 <= i < |sum| ensures sum[i] == want[i] {
        assert SameButCase(sum[i], want[i]) && sum[i] in sum && want[i] in want;
      }
    }
  }

  predicate IsReady(entry: Option<Directory>) {
    entry.Some? && entry.value.ready.Some?
  }

  /** Between taking the lock and removing it. */
  predicate Holds(s: Stage) {
    !(s.Looking? || s.Contending? || s.Stealing? || s.Waiting? || s.Returned? || s.Failed? || s.Crashed?)
  }

  /** The stages from looking again under the lock to removing it. */
  predicate AtWork(s: Stage) {
    || s.Rechecking? || s.ClearingStaging? || s.ClearingEntry? || s.MakingStaging? || s.Downloading? || s.Verifying?
    || s.Unpacking? || s.Tidying? || s.Marking? || s.Publishing? || s.Releasing?
  }

  /** The holder is writing: an operation of its may fail. */
  predicate Building(s: Stage) {
    s.MakingStaging? || s.Downloading? || s.Unpacking? || s.Marking? || s.Publishing?
  }

  /** The process is at the stage the step starts from, and the step can be taken. */
  predicate Enabled(s: CacheState, e: Step) {
    && e.p in s.procs
    && var at := s.procs[e.p];
       match e
       case Look(_) => at.Looking?
       case Acquire(_) => at.Contending?
       case Poll(_) => at.Waiting?
       case GiveUp(_) => at.Waiting?
       case Recheck(_) => at.Rechecking?
       case ClearStaging(_) => at.ClearingStaging?
       case ClearEntry(_) => at.ClearingEntry?
       case MakeStaging(_) => at.MakingStaging?
       case Download(_, _) => at.Downloading?
       case Verify(_) => at.Verifying?
       case Unpack(_) => at.Unpacking? && s.staging.Some? && s.staging.value.download.Some?
       case Tidy(_) => at.Tidying?
       case Mark(_) => at.Marking?
       case Publish(_) => at.Publishing? && s.staging.Some? && s.entry.None?
       case Fault(_, _) => Building(at)
       case Release(_) => at.Releasing?
       case Crash(_, left) => !(at.Returned? || at.Failed? || at.Crashed?) && (Building(at) || left == s.staging)
       case Judge(_) => at.Contending? && s.lock
       case Steal(_) => at.Stealing?
  }

  function At(s: CacheState, p: nat, stage: Stage): CacheState {
    s.(procs := s.procs[p := stage])
  }

  function Staged(s: CacheState): Directory {
    if s.staging.Some? then s.staging.value else EMPTY_DIRECTORY
  }

  /** The state after a step. */
  function Apply(b: Build, s: CacheState, e: Step): CacheState
    requires Enabled(s, e)
  {
    var p := e.p;
    match e
    case Look(_) => At(s, p, if IsReady(s.entry) then Returned else Contending)
    case Acquire(_) => if s.lock then At(s, p, Waiting) else At(s.(lock := true), p, Rechecking)
    case Poll(_) => At(s, p, if IsReady(s.entry) then Returned else Waiting)
    case GiveUp(_) => At(s, p, Failed)
    case Recheck(_) => At(s, p, if IsReady(s.entry) then Releasing(true) else ClearingStaging)
    case ClearStaging(_) => At(s.(staging := None), p, ClearingEntry)
    case ClearEntry(_) => At(s.(entry := None), p, MakingStaging)
    case MakeStaging(_) => At(s.(staging := Some(Staged(s))), p, Downloading)
    case Download(_, bytes) => At(s.(staging := Some(Staged(s).(download := Some(bytes)))), p, Verifying(b.sha(bytes)))
    case Verify(_) => At(s, p, if Matches(s.procs[p].sum, b.want) then Unpacking(s.procs[p].sum) else Releasing(false))
    case Unpack(_) =>
      At(s.(staging := Some(Staged(s).(payload := Some(Payload(Staged(s).download.value, b.format, true))))), p, Tidying(s.procs[p].sum))
    case Tidy(_) =>
      At(if b.format != "none" then s.(staging := Some(Staged(s).(download := None))) else s, p, Marking(s.procs[p].sum))
    case Mark(_) => At(s.(staging := Some(Staged(s).(ready := Some(s.procs[p].sum)))), p, Publishing(s.procs[p].sum))
    case Publish(_) => At(s.(entry := s.staging, staging := None), p, Releasing(true))
    case Fault(_, left) => At(s.(staging := left), p, Releasing(false))
    case Release(_) => At(s.(lock := false), p, if s.procs[p].found then Returned else Failed)
    case Crash(_, left) => At(s.(staging := left), p, Crashed)
    case Judge(_) => At(s, p, Stealing)
    case Steal(_) => At(s.(lock := false), p, Contending)
  }

  /** No process holds the lock: a lock file that is there was left by a crash. */
  ghost predicate Unheld(s: CacheState) {
    forall p <- s.procs :: !Holds(s.procs[p])
  }

  /** A lock file is removed as stale only once nobody holds it. */
  ghost predicate Careful(s: CacheState, e: Step) {
    e.Steal? ==> Unheld(s)
  }

  ghost predicate Run(b: Build, s: CacheState, es: seq<Step>)
    decreases |es|
  {
    es == [] || (Enabled(s, es[0]) && Careful(s, es[0]) && Run(b, Apply(b, s, es[0]), es[1..]))
  }

  ghost function After(b: Build, s: CacheState, es: seq<Step>): CacheState
    requires Run(b, s, es)
    decreases |es|
  {
    if es == [] then s else After(b, Apply(b, s, es[0]), es[1..])
  }

  // -------------------------------------------------------------- invariants

  /** The lock file is there while a process holds it, and only one does. */
  ghost predicate Exclusive(s: CacheState) {
    && (forall p <- s.procs :: Holds(s.procs[p]) ==> s.lock)
    && (forall p, q | p in s.procs && q in s.procs && Holds(s.procs[p]) && Holds(s.procs[q]) :: p == q)
  }

  /** A directory worth returning: marked, over a whole payload unpacked from bytes with the declared checksum. */
  predicate Good(b: Build, d: Directory) {
    && d.ready.Some? && d.payload.Some? && d.payload.value.whole
    && d.ready.value == b.sha(d.payload.value.bytes) && Matches(d.ready.value, b.want)
  }

  predicate EntryGood(b: Build, s: CacheState) {
    s.entry.Some? ==> Good(b, s.entry.value)
  }

  /** What a process at this stage can rely on. */
  predicate StageOk(b: Build, s: CacheState, at: Stage) {
    match at
    case ClearingStaging => s.entry.None?
    case ClearingEntry => s.entry.None? && s.staging.None?
    case MakingStaging => s.entry.None? && s.staging.None?
    case Downloading => s.entry.None? && s.staging == Some(EMPTY_DIRECTORY)
    case Verifying(sum) => s.entry.None? && Staging(b, s, sum, false, false)
    case Unpacking(sum) => s.entry.None? && Staging(b, s, sum, false, false) && Matches(sum, b.want)
    case Tidying(sum) => s.entry.None? && Staging(b, s, sum, true, false) && Matches(sum, b.want)
    case Marking(sum) => s.entry.None? && Staging(b, s, sum, true, false) && Matches(sum, b.want)
    case Publishing(sum) => s.entry.None? && Staging(b, s, sum, true, true) && Matches(sum, b.want)
    case Releasing(found) => found ==> IsReady(s.entry)
    case Returned => IsReady(s.entry)
    case _ => true
  }

  /** Staging holds the download or, once unpacked, a whole payload, of this checksum. */
  predicate Staging(b: Build, s: CacheState, sum: string, unpacked: bool, marked: bool) {
    && s.staging.Some?
    && (if unpacked
        then s.staging.value.payload.Some? && s.staging.value.payload.value.whole && b.sha(s.staging.value.payload.value.bytes) == sum
        else s.staging.value.download.Some? && b.sha(s.staging.value.download.value) == sum)
    && s.staging.value.ready == if marked then Some(sum) else None
  }

  ghost predicate StagesOk(b: Build, s: CacheState) {
    forall p <- s.procs :: StageOk(b, s, s.procs[p])
  }

  ghost predicate Inv(b: Build, s: CacheState) {
    Exclusive(s) && EntryGood(b, s) && StagesOk(b, s)
  }

  /** A node where nothing is going on yet: whatever an earlier process left in
      staging, or if it left its lock. */
  ghost predicate Initial(b: Build, s: CacheState) {
    EntryGood(b, s) && forall p <- s.procs :: s.procs[p].Looking?
  }

  lemma StepKeepsExclusive(b: Build, s: CacheState, e: Step)
    requires Exclusive(s) && Enabled(s, e) && Careful(s, e)
    ensures Exclusive(Apply(b, s, e))
  {
    hide Matches;
    hide Staged;
  }

  lemma StepKeepsEntryGood(b: Build, s: CacheState, e: Step)
    requires Inv(b, s) && Enabled(s, e) && Careful(s, e)
    ensures EntryGood(b, Apply(b, s, e))
  {
    hide Exclusive;
    hide Matches;
    hide Careful;
    assert StageOk(b, s, s.procs[e.p]);
  }

  /** No step removes or replaces a ready entry. */
  lemma ReadyStays(b: Build, s: CacheState, e: Step)
    requires Inv(b, s) && Enabled(s, e) && Careful(s, e)
    ensures s.entry.Some? ==> Apply(b, s, e).entry == s.entry
  {
    assert StageOk(b, s, s.procs[e.p]);
  }

  lemma OwnStage(b: Build, s: CacheState, e: Step)
    requires Inv(b, s) && Enabled(s, e) && Careful(s, e)
    ensures StageOk(b, Apply(b, s, e), Apply(b, s, e).procs[e.p])
  {
    hide Exclusive;
    hide Matches;
    hide Careful;
    assert StageOk(b, s, s.procs[e.p]);
  }

  /** A step of one process leaves what the others rely on. */
  lemma OthersStage(b: Build, s: CacheState, e: Step, q: nat)
    requires Inv(b, s) && Enabled(s, e) && Careful(s, e) && q in s.procs && q != e.p
    ensures StageOk(b, Apply(b, s, e), s.procs[q])
  {
    hide Matches;
    ReadyStays(b, s, e);
    assert StageOk(b, s, s.procs[q]) && StageOk(b, s, s.procs[e.p]);
  }

  lemma StepKeepsInv(b: Build, s: CacheState, e: Step)
    requires Inv(b, s) && Enabled(s, e) && Careful(s, e)
    ensures Inv(b, Apply(b, s, e))
  {
    hide StageOk;
    hide Exclusive;
    hide Enabled;
    hide Good;
    StepKeepsExclusive(b, s, e);
    StepKeepsEntryGood(b, s, e);
    OwnStage(b, s, e);
    forall q <- s.procs | q != e.p ensures StageOk(b, Apply(b, s, e), s.procs[q]) {
      OthersStage(b, s, e, q);
    }
  }

  /** In every run of any number of processes, in which a stale lock is removed
      only once its holder is gone: at most one is between taking and removing
      the lock; the entry is there only with its marker over a whole payload of
      the declared checksum; and every path returned belongs to such an entry. */
  lemma {:induction false} RunsAreSafe(b: Build, s: CacheState, es: seq<Step>)
    requires Inv(b, s) && Run(b, s, es)
    ensures Inv(b, After(b, s, es))
    ensures s.entry.Some? ==> After(b, s, es).entry == s.entry
    decreases |es|
  {
    if es != [] {
      StepKeepsInv(b, s, es[0]);
      ReadyStays(b, s, es[0]);
      RunsAreSafe(b, Apply(b, s, es[0]), es[1..]);
    }
  }

  lemma RestIsSafe(b: Build, s: CacheState)
    requires Initial(b, s)
    ensures Inv(b, s)
  {
  }

  /** So it is from any node where nothing is going on yet: whoever has returned
      was given a good entry, and nobody else is at work beside a holder. */
  lemma RunsFromRest(b: Build, s: CacheState, es: seq<Step>)
    requires Initial(b, s) && Run(b, s, es)
    ensures forall p, q | p in After(b, s, es).procs && q in After(b, s, es).procs
                          && AtWork(After(b, s, es).procs[p]) && AtWork(After(b, s, es).procs[q]) :: p == q
    ensures After(b, s, es).entry.Some? ==> Checked(b, After(b, s, es).entry.value)
    ensures forall p <- After(b, s, es).procs | After(b, s, es).procs[p].Returned? ::
              After(b, s, es).entry.Some? && Checked(b, After(b, s, es).entry.value)
  {
    hide StageOk;
    hide Good;
    hide Checked;
    hide Enabled;
    hide Apply;
    RestIsSafe(b, s);
    RunsAreSafe(b, s, es);
    if After(b, s, es).entry.Some? {
      GoodIsChecked(b, After(b, s, es).entry.value);
    }
    forall p <- After(b, s, es).procs | After(b, s, es).procs[p].Returned?
      ensures After(b, s, es).entry.Some? && Checked(b, After(b, s, es).entry.value)
    {
      ReturnedIsGood(b, After(b, s, es), p);
    }
  }

  /** A path is returned only for a good entry. */
  lemma ReturnedIsGood(b: Build, s: CacheState, p: nat)
    requires Inv(b, s) && p in s.procs && s.procs[p].Returned?
    ensures s.entry.Some? && Good(b, s.entry.value)
    ensures Checked(b, s.entry.value)
  {
    assert StageOk(b, s, s.procs[p]);
    GoodIsChecked(b, s.entry.value);
  }

  /** The payload was unpacked, whole, from bytes whose checksum is the declared
      one but for the case of letters; exactly that one when both are written in
      lower case. */
  ghost predicate Checked(b: Build, d: Directory) {
    && d.ready.Some? && d.payload.Some? && d.payload.value.whole
    && var sum := b.sha(d.payload.value.bytes);
       && |sum| == |b.want| && (forall i | 0 <= i < |sum| :: SameButCase(sum[i], b.want[i]))
       && (LowerCase(sum) && LowerCase(b.want) ==> sum == b.want)
  }

  lemma GoodIsChecked(b: Build, d: Directory)
    requires Good(b, d)
    ensures Checked(b, d)
  {
    var sum := b.sha(d.payload.value.bytes);
    MatchesMeans(sum, b.want);
    if LowerCase(sum) && LowerCase(b.want) {
      LowerCaseMatch(sum, b.want);
    }
  }

  // -------------------------------------------------------------- stale locks

  /** Removing a lock file as stale is harmless exactly when nobody holds it. */
  lemma StealingIsSafe(b: Build, s: CacheState, q: nat)
    requires Inv(b, s) && Enabled(s, Steal(q))
    ensures Exclusive(Apply(b, s, Steal(q))) <==> Unheld(s)
    ensures Inv(b, Apply(b, s, Steal(q))) <==> Unheld(s)
  {
    var t := Apply(b, s, Steal(q));
    if Unheld(s) {
      StepKeepsInv(b, s, Steal(q));
    } else {
      var p :| p in s.procs && Holds(s.procs[p]);
      assert Holds(t.procs[p]) && !t.lock;
    }
  }

  /** Two processes find the lock of a crashed one stale; the first removes it and takes its own. */
  function Race(p: nat, q: nat): seq<Step> {
    [Judge(p), Judge(q), Steal(p), Acquire(p)]
  }

  /** In the middle of the race: one is at work, the other about to remove its lock. */
  function MidRace(s: CacheState, p: nat, q: nat): CacheState {
    s.(lock := true, procs := s.procs[p := Rechecking][q := Stealing])
  }

  lemma RaceStarts(b: Build, s: CacheState, p: nat, q: nat)
    requires p != q && s.lock && Unheld(s)
    requires p in s.procs && s.procs[p].Contending? && q in s.procs && s.procs[q].Contending?
    ensures Run(b, s, Race(p, q)) && After(b, s, Race(p, q)) == MidRace(s, p, q)
  {
    var s1 := Apply(b, s, Judge(p));
    var s2 := Apply(b, s1, Judge(q));
    var s3 := Apply(b, s2, Steal(p));
    assert Apply(b, s3, Acquire(p)) == MidRace(s, p, q);
    Unroll(b, s3, Acquire(p), []);
    assert [Acquire(p)] + [] == [Acquire(p)];
    assert [Steal(p)] + [Acquire(p)] == [Steal(p), Acquire(p)];
    assert [Judge(q)] + [Steal(p), Acquire(p)] == [Judge(q), Steal(p), Acquire(p)];
    assert [Judge(p)] + [Judge(q), Steal(p), Acquire(p)] == Race(p, q);
    Unroll(b, s2, Steal(p), [Acquire(p)]);
    Unroll(b, s1, Judge(q), [Steal(p), Acquire(p)]);
    Unroll(b, s, Judge(p), [Judge(q), Steal(p), Acquire(p)]);
  }

  lemma Unroll(b: Build, s: CacheState, e: Step, es: seq<Step>)
    requires Enabled(s, e) && Careful(s, e) && Run(b, Apply(b, s, e), es)
    ensures Run(b, s, [e] + es) && After(b, s, [e] + es) == After(b, Apply(b, s, e), es)
  {
    hide Enabled;
    hide Apply;
    hide Careful;
    assert ([e] + es)[1..] == es;
  }

  /** It does not help that the holder is gone when the lock is judged: the
      second remover takes the first one's lock away, and both go to work. */
  lemma TakeoverBreaksExclusion(b: Build, s: CacheState, p: nat, q: nat)
    requires s.lock && Unheld(s) && p != q
    requires p in s.procs && s.procs[p].Contending? && q in s.procs && s.procs[q].Contending?
    ensures var t := MidRace(s, p, q);
      && Run(b, s, Race(p, q)) && After(b, s, Race(p, q)) == t
      && Enabled(t, Steal(q)) && !Careful(t, Steal(q))
      && Enabled(Apply(b, t, Steal(q)), Acquire(q))
      && !Exclusive(Apply(b, Apply(b, t, Steal(q)), Acquire(q)))
  {
    RaceStarts(b, s, p, q);
    var t := MidRace(s, p, q);
    assert Holds(t.procs[p]);
    var u := Apply(b, Apply(b, t, Steal(q)), Acquire(q));
    assert Holds(u.procs[p]) && Holds(u.procs[q]);
  }

  // -------------------------------------------------------- one process's view

  // The files processes share.
  datatype Files = Files(lock: bool, staging: Option<Directory>, entry: Option<Directory>)

  function FilesOf(s: CacheState): Files {
    Files(s.lock, s.staging, s.entry)
  }

  /** What the other processes may do meanwhile: nothing at all to a process that
      holds the lock; otherwise anything but lose a good entry or make a bad one. */
  predicate Meanwhile(b: Build, held: bool, f: Files, f': Files) {
    && (held ==> f' == f)
    && (f.entry.Some? ==> f'.entry == f.entry)
    && (f'.entry.Some? ==> Good(b, f'.entry.value))
  }

  /** That is what the steps of other processes do, in every state of a run. */
  lemma OthersMeanwhile(b: Build, s: CacheState, e: Step, p: nat)
    requires Inv(b, s) && Enabled(s, e) && Careful(s, e) && p in s.procs && e.p != p
    ensures Meanwhile(b, Holds(s.procs[p]), FilesOf(s), FilesOf(Apply(b, s, e)))
  {
    StepKeepsEntryGood(b, s, e);
    ReadyStays(b, s, e);
    assert StageOk(b, s, s.procs[e.p]);
    assert Holds(s.procs[p]) ==> !Holds(s.procs[e.p]);
  }

  // What the surroundings do to one call: where the others move the files before
  // each of its operations, and which operations fail.
  datatype World = World(moves: nat -> Files, fails: nat -> bool, leaves: nat -> Option<Directory>, bytes: string, patience: nat)

  const FORMATS := {"zip", "tar.gz", "tgz", "tar", "none"}

  class Cache {
    var files: Files
    var clock: nat
    var held: bool
    const build: Build
    const world: World

    /** The entry, if there, is good; the lock file is there while this process holds it. */
    ghost predicate Valid()
      reads this
    {
      (files.entry.Some? ==> Good(build, files.entry.value)) && (held ==> files.lock)
    }

    /** The download has the declared checksum, its format is known, and no operation fails. */
    ghost predicate Fetchable() {
      Matches(build.sha(world.bytes), build.want) && build.format in FORMATS && forall t :: !world.fails(t)
    }

    /** Nobody else takes the lock. */
    ghost predicate Uncontended() {
      forall t :: !world.moves(t).lock
    }

    constructor (build: Build, world: World, files: Files)
      requires files.entry.Some? ==> Good(build, files.entry.value)
      ensures Valid() && !held && this.build == build && this.world == world && this.files == files
    {
      this.build, this.world, this.files, clock, held := build, world, files, 0, false;
    }

    /** Time passes, and the others move. */
    method Others()
      requires Valid()
      modifies this`files, this`clock
      ensures Valid() && Meanwhile(build, held, old(files), files) && clock == old(clock) + 1
      ensures Uncontended() && !old(files).lock ==> !files.lock
    {
      if Meanwhile(build, held, files, world.moves(clock)) {
        files := world.moves(clock);
      }
      clock := clock + 1;
    }

    /** os.Stat on the marker. */
    method StatReady() returns (ready: bool)
      requires Valid()
      modifies this`files, this`clock
      ensures Valid() && Meanwhile(build, held, old(files), files) && ready == IsReady(files.entry) && clock == old(clock) + 1
      ensures Uncontended() && !old(files).lock ==> !files.lock
    {
      Others();
      ready := IsReady(files.entry);
    }

    /** Create the lock file, unless it exists. */
    method AcquireLock() returns (taken: bool)
      requires Valid() && !held
      modifies this
      ensures Valid() && held == taken
      ensures old(files).entry.Some? ==> files.entry == old(files).entry
      ensures Uncontended() && !old(files).lock ==> taken
    {
      Others();
      if files.lock {
        return false;
      }
      files, held := files.(lock := true), true;
      return true;
    }

    /** Poll the marker until it is there or patience runs out. */
    method WaitReady() returns (ready: bool)
      requires Valid() && !held
      modifies this`files, this`clock
      ensures Valid() && (ready ==> IsReady(files.entry))
      ensures !ready ==> clock == old(clock) + world.patience && (world.patience > 0 ==> !IsReady(files.entry))
      ensures old(files).entry.Some? ==> files.entry == old(files).entry
    {
      for i := 0 to world.patience
        invariant Valid() && !held && clock == old(clock) + i
        invariant i > 0 ==> !IsReady(files.entry)
        invariant old(files).entry.Some? ==> files.entry == old(files).entry
      {
        ready := StatReady();
        if ready {
          return;
        }
      }
      return false;
    }

    /** The path of an unpacked build, fetched if needed. */
    method Ensure() returns (found: bool)
      requires Valid() && !held
      modifies this
      ensures Valid() && !held
      ensures found ==> files.entry.Some? && Good(build, files.entry.value) && Checked(build, files.entry.value)
      ensures old(files).entry.Some? ==> found && files.entry == old(files).entry
      ensures Uncontended() && !old(files).lock && Fetchable() ==> found
    {
      found := StatReady();
      if found {
        GoodIsChecked(build, files.entry.value);
        return;
      }
      Others();
      if world.fails(clock) {
        return;
      }
      var taken := AcquireLock();
      if !taken {
        found := WaitReady();
        if found {
          GoodIsChecked(build, files.entry.value);
        }
        return;
      }
      found := StatReady();
      if !found {
        found := Populate();
      }
      files, held := files.(lock := false), false;
      if found {
        GoodIsChecked(build, files.entry.value);
      }
    }

    /** Under the lock: fetch, check, unpack, mark and publish. */
    method Populate() returns (ok: bool)
      requires Valid() && held && !IsReady(files.entry)
      modifies this
      ensures Valid() && held && (ok ==> IsReady(files.entry))
      ensures Fetchable() ==> ok
      ensures !ok ==> files.entry.None?
      ensures Differs(build.sha(world.bytes), build.want) || build.format !in FORMATS ==> !ok
    {
      Others();
      files := files.(staging := None);
      Others();
      files := files.(entry := None);
      var sum;
      MatchesMeans(build.sha(world.bytes), build.want);
      ok, sum := Fetch();
      if !ok || !Matches(sum, build.want) {
        return false;
      }
      ok := UnpackAndMark(sum);
      if !ok {
        return;
      }
      Others();
      if world.fails(clock) {
        return false;
      }
      files := files.(entry := files.staging, staging := None);
    }

    method Fetch() returns (ok: bool, sum: string)
      requires Valid() && held && files.entry.None? && files.staging.None?
      modifies this
      ensures Valid() && held && files.entry.None?
      ensures ok ==> files.staging == Some(EMPTY_DIRECTORY.(download := Some(world.bytes))) && sum == build.sha(world.bytes)
      ensures (forall t :: !world.fails(t)) ==> ok
    {
      Others();
      if world.fails(clock) {
        return false, "";
      }
      files := files.(staging := Some(EMPTY_DIRECTORY));
      Others();
      if world.fails(clock) {
        files := files.(staging := world.leaves(clock));
        return false, "";
      }
      files := files.(staging := Some(EMPTY_DIRECTORY.(download := Some(world.bytes))));
      return true, build.sha(world.bytes);
    }

    method UnpackAndMark(sum: string) returns (ok: bool)
      requires Valid() && held && files.entry.None? && Matches(sum, build.want)
      requires files.staging == Some(EMPTY_DIRECTORY.(download := Some(world.bytes))) && sum == build.sha(world.bytes)
      modifies this
      ensures Valid() && held && files.entry.None?
      ensures ok ==> files.staging.Some? && Good(build, files.staging.value) && build.format in FORMATS
      ensures build.format in FORMATS && (forall t :: !world.fails(t)) ==> ok
    {
      Others();
      if world.fails(clock) || build.format !in FORMATS {
        return false;
      }
      Others();
      if world.fails(clock) {
        files := files.(staging := world.leaves(clock));
        return false;
      }
      var d := files.staging.value;
      d := d.(payload := Some(Payload(d.download.value, build.format, true)));
      files := files.(staging := Some(d));
      if build.format != "none" {
        Others();
        d := d.(download := None);
        files := files.(staging := Some(d));
      }
      Others();
      if world.fails(clock) {
        files := files.(staging := world.leaves(clock));
        return false;
      }
      files := files.(staging := Some(d.(ready := Some(sum))));
      return true;
    }
  }
}
