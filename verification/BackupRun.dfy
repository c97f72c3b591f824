/**
 * `run_backup` over the ledger file and the bucket, proved to do what `Backup.VisitAll`
 * says, and what every run keeps: its cache, its window and its accounting.
 */
module BackupRun {
  import opened Wrappers
  import opened Framing
  import opened Ledger
  import opened PartitionTar
  import opened CaptureArchive
  import opened Backup
  import ObjectName

  // ---- The bucket ----------------------------------------------------------

  class ObjectStore {
    var objects: map<string, Bytes>

    constructor (objects: map<string, Bytes>)
      ensures this.objects == objects
    {
      this.objects := objects;
    }

    /**
     * `put_new`: whether the object was created, or an error; `None` for one that is not
     * caught. An existing object is never overwritten.
     */
    method PutNew(name: string, body: Bytes, reply: Reply) returns (created: Option<Result<bool, Failure>>)
      modifies this
      ensures reply.Answered? ==> created == Some(Ok(name !in old(objects)))
      ensures reply.TransportError? ==> created == Some(Err(PutFailed))
      ensures reply.BrokenOff? ==> created == None
      ensures objects == if reply.Answered? || reply.stored then Backup.PutNew(old(objects), name, body) else old(objects)
    {
      match reply
      case Answered =>
        created := Some(Ok(name !in objects));
        if name !in objects {
          objects := objects[name := body];
        }
      case TransportError(stored) =>
        if stored && name !in objects {
          objects := objects[name := body];
        }
        created := Some(Err(PutFailed));
      case BrokenOff(stored) =>
        if stored && name !in objects {
          objects := objects[name := body];
        }
        created := None;
    }
  }

  // ---- The report ----------------------------------------------------------

  datatype Problem = HoldsAnotherManifest | VisitFailed(failure: Failure)

  /** The lists and counters a run fills in. */
  datatype Tally = Tally(
    uploaded: seq<string>,
    conflicts: seq<string>,
    pending: seq<string>,
    stale: seq<string>,
    failures: seq<(string, Problem)>,
    skipped: nat,
    deferred: nat,
    beyondHorizon: nat,
    overBudget: nat)

  const EMPTY_TALLY := Tally([], [], [], [], [], 0, 0, 0, 0)

  datatype Report = Report(
    tally: Tally,
    disagreeing: set<string>,
    windowBytes: int,
    budgetBytes: int,
    unverifiedInWindow: set<string>,
    states: map<State, nat>)
  {
    predicate Ok() {
      && tally.failures == [] && disagreeing == {}
      && tally.stale == []
      && unverifiedInWindow == {}
      && tally.overBudget == 0
    }
  }

  function Add(t: Tally, name: string, o: Outcome): Tally {
    match o
    case Sent => t.(uploaded := t.uploaded + [name])
    case Conflict => t.(conflicts := t.conflicts + [name])
    case Skipped => t.(skipped := t.skipped + 1)
    case AlreadyRecorded => t
    case OtherManifest => t.(failures := t.failures + [(name, HoldsAnotherManifest)])
    case Disagreeing => t
    case Pending => t.(pending := t.pending + [name])
    case Stale => t.(stale := t.stale + [name])
    case BeyondHorizon => t.(beyondHorizon := t.beyondHorizon + 1)
    case Deferred => t.(deferred := t.deferred + 1)
    case OverBudget => t.(overBudget := t.overBudget + 1)
    case Failed(e) => t.(failures := t.failures + [(name, VisitFailed(e))])
  }

  function TallyOf(fs: seq<Found>, os: seq<Outcome>): Tally
    requires |os| <= |fs|
  {
    if os == [] then EMPTY_TALLY
    else Add(TallyOf(fs, os[..|os| - 1]), NameOf(fs[|os| - 1]), os[|os| - 1])
  }

  function UnverifiedSince(m: map<string, Entry>, start: int): set<string> {
    set n | n in m && m[n].state.RemoteExistsUnverified? && m[n].firstAt * NANOS > start
  }

  function InState(m: map<string, Entry>, s: State): nat {
    |set n | n in m && m[n].state == s|
  }

  function ReportOf(fs: seq<Found>, run: Run): Report
    requires |run.outcomes| <= |fs|
  {
    Report(TallyOf(fs, run.outcomes), run.inconsistent, run.windowBytes, run.config.budgetBytes,
           UnverifiedSince(run.cache, WindowStart(run.config.windowDays, run.now)),
           map[Uploaded := InState(run.cache, Uploaded), RestoreVerified := InState(run.cache, RestoreVerified),
               RemoteExistsUnverified := InState(run.cache, RemoteExistsUnverified)])
  }

  // ---- The run -------------------------------------------------------------

  /** A directory of the archive. */
  datatype Directory = Directory(relative: string, listing: Listing, finalizedAt: int)
  datatype Root = Root(rootLabel: string, directories: seq<Directory>)
  datatype BackupError = BadConfiguration | RootLabelNotApproved | UncaughtError

  /** `find_partitions_v1`: of the directories in order, those that hold a `session.json`. */
  function Partitions(rootLabel: string, ds: seq<Directory>): seq<Found> {
    if ds == [] then []
    else
      var before, d := Partitions(rootLabel, ds[..|ds| - 1]), ds[|ds| - 1];
      if Holds(d.listing, SESSION) then before + [Found(rootLabel, d.relative, d.listing, d.finalizedAt)] else before
  }

  function Under(root: Root): seq<Found> {
    Partitions(root.rootLabel, root.directories)
  }

  function FoundIn(roots: seq<Root>): seq<Found> {
    if roots == [] then [] else FoundIn(roots[..|roots| - 1]) + Under(roots[|roots| - 1])
  }

  predicate GoodConfig(c: Config) {
    1 <= c.horizonDays <= c.windowDays && 1 <= c.budgetBytes
  }

  predicate GoodRoots(roots: seq<Root>) {
    forall i | 0 <= i < |roots| :: roots[i].rootLabel in ObjectName.APPROVED_LABELS
  }

  /** The run as it stands after reading the ledger. */
  ghost function Started(config: Config, now: nat, ledger: string): Run {
    var g := Read(ledger);
    Run(config, now, g.entries, g.inconsistent, WindowSum(g.entries, WindowStart(config.windowDays, now)), [], false)
  }

  lemma {:induction false} TallyCounts(fs: seq<Found>, os: seq<Outcome>)
    requires |os| <= |fs|
    ensures |TallyOf(fs, os).uploaded| == Count(os, Sent)
    ensures |TallyOf(fs, os).conflicts| == Count(os, Conflict)
    ensures TallyOf(fs, os).overBudget == Count(os, OverBudget)
  {
    if os != [] {
      TallyCounts(fs, os[..|os| - 1]);
    }
  }

  /** What a turn must leave behind when the run and the site go from before to `after`. */
  ghost predicate Leaves(run: Run, f: Found, tally: Tally, after: (Run, Site), site: Site,
                         ledger: map<string, Entry>, windowBytes: int, tally': Option<Tally>) {
    var r := after.0;
    && after.1 == site && r.cache == ledger && r.windowBytes == windowBytes
    && (tally'.None? <==> r.aborted)
    && (tally'.Some? ==> |r.outcomes| == |run.outcomes| + 1
                         && tally'.value == Add(tally, NameOf(f), r.outcomes[|run.outcomes|]))
  }

  /** The part of the loop body from the path check on; `None` when an uncaught error ends the run. */
  method SendOne(a: Authority, ghost run: Run, f: Found, file: LedgerFile, store: ObjectStore, reply: Reply,
                 manifestHash: string, budgetBytes: int, now: nat, ledger: map<string, Entry>, windowBytes: int,
                 tally: Tally)
    returns (ledger': map<string, Entry>, windowBytes': int, tally': Option<Tally>)
    requires !run.aborted && run.config.budgetBytes == budgetBytes && run.now == now
    requires run.cache == ledger && run.windowBytes == windowBytes
    modifies file, store
    ensures Leaves(run, f, tally, Perform(a, run, Site(old(file.text), old(store.objects)), f,
                                          DecideBody(a, run, f, manifestHash), reply),
                   Site(file.text, store.objects), ledger', windowBytes', tally')
  {
    hide CanonicalPathError, Pack, AppendText, Read, Fold, RecordsOf;
    ledger', windowBytes' := ledger, windowBytes;
    var name := ObjectName.ObjectName(f.rootLabel, f.relative);
    var misplaced := CanonicalPathError(a, FilesIn(f.listing), f.rootLabel, f.relative);
    if misplaced.Some? {
      return ledger, windowBytes,
             Some(tally.(failures := tally.failures + [(name, VisitFailed(PathFailure(misplaced.value)))]));
    }
    var packed := PartitionTarBytes(f.listing, f.relative);
    if packed.Err? {
      match packed.error {
        case UnexpectedFile(n) =>
          return ledger, windowBytes,
                 Some(tally.(failures := tally.failures + [(name, VisitFailed(UnexpectedPartitionFile(n)))]));
        case DoesNotFit(_) =>
          return ledger, windowBytes, None;
      }
    }
    var body := packed.value;
    if windowBytes + |body| > budgetBytes {
      return ledger, windowBytes, Some(tally.(overBudget := tally.overBudget + 1));
    }
    var put := store.PutNew(name, body, reply);
    if put.None? {
      return ledger, windowBytes, None;
    }
    var created := put.value;
    if created.Err? {
      return ledger, windowBytes, Some(tally.(failures := tally.failures + [(name, VisitFailed(created.error))]));
    }
    var entry := Entry(manifestHash, a.sha(body), |body|, now / NANOS,
                       if created.value then Uploaded else RemoteExistsUnverified);
    file.Append(Record(name, entry.manifestHash, entry.tarSha, entry.size, entry.firstAt,
                       if created.value then UPLOADED else REMOTE_EXISTS_UNVERIFIED));
    ledger' := ledger[name := entry];
    windowBytes' := windowBytes + entry.size;
    tally' := Some(if created.value then tally.(uploaded := tally.uploaded + [name])
                   else tally.(conflicts := tally.conflicts + [name]));
  }

  /** The body of the loop. */
  method VisitOne(a: Authority, ghost run: Run, f: Found, file: LedgerFile, store: ObjectStore, reply: Reply,
                  config: Config, now: nat, ledger: map<string, Entry>, inconsistent: set<string>, windowBytes: int,
                  tally: Tally)
    returns (ledger': map<string, Entry>, windowBytes': int, tally': Option<Tally>)
    requires !run.aborted && run.config == config && run.now == now
    requires run.cache == ledger && run.inconsistent == inconsistent && run.windowBytes == windowBytes
    requires |tally.uploaded| == Count(run.outcomes, Sent) && |tally.conflicts| == Count(run.outcomes, Conflict)
    requires tally.overBudget == Count(run.outcomes, OverBudget)
    modifies file, store
    ensures Leaves(run, f, tally, Visit(a, run, Site(old(file.text), old(store.objects)), f, reply),
                   Site(file.text, store.objects), ledger', windowBytes', tally')
  {
    hide DecideBody, Count, Recorded, PutNew, AppendText;
    ledger', windowBytes' := ledger, windowBytes;
    var name := ObjectName.ObjectName(f.rootLabel, f.relative);
    if Holds(f.listing, OPEN_MARKER) || !Holds(f.listing, MANIFEST) {
      return ledger, windowBytes, Some(tally.(skipped := tally.skipped + 1));
    }
    var manifest := ManifestOf(a, FilesIn(f.listing));
    if manifest.None? {
      return ledger, windowBytes, None;
    }
    var manifestHash := manifest.value.contentHash;
    if name in ledger {
      if ledger[name].manifestHash != manifestHash {
        return ledger, windowBytes, Some(tally.(failures := tally.failures + [(name, HoldsAnotherManifest)]));
      }
      return ledger, windowBytes, Some(tally);
    }
    if name in inconsistent {
      return ledger, windowBytes, Some(tally);
    }
    if Holds(f.listing, RAW_RECORDS) || !Holds(f.listing, COMPACTION) {
      if now - f.finalizedAt > STALE_UNCOMPACTED_SECONDS * NANOS {
        return ledger, windowBytes, Some(tally.(stale := tally.stale + [name]));
      }
      return ledger, windowBytes, Some(tally.(pending := tally.pending + [name]));
    }
    if now - f.finalizedAt > config.horizonDays * DAY_SECONDS * NANOS {
      return ledger, windowBytes, Some(tally.(beyondHorizon := tally.beyondHorizon + 1));
    }
    var complete := a.complete(FilesIn(f.listing));
    if complete.None? {
      return ledger, windowBytes, None;
    }
    if !complete.value {
      return ledger, windowBytes, Some(tally.(skipped := tally.skipped + 1));
    }
    if |tally.uploaded| + |tally.conflicts| >= config.maxUploads {
      return ledger, windowBytes, Some(tally.(deferred := tally.deferred + 1));
    }
    if tally.overBudget > 0 {
      return ledger, windowBytes, Some(tally.(overBudget := tally.overBudget + 1));
    }
    ledger', windowBytes', tally' :=
      SendOne(a, run, f, file, store, reply, manifestHash, config.budgetBytes, now, ledger, windowBytes, tally);
  }

  lemma FoundNext(roots: seq<Root>, i: nat)
    requires i < |roots|
    ensures FoundIn(roots[..i + 1]) == FoundIn(roots[..i]) + Under(roots[i])
  {
    assert roots[..i + 1][..i] == roots[..i];
  }

  /** What the loop has established after the partitions `done`. */
  ghost predicate Done(a: Authority, start: Run, site: Site, done: seq<Found>, replies: nat -> Reply,
                       run: Run, now: Site, tally: Tally) {
    && VisitAll(a, start, site, done, replies) == (run, now)
    && !run.aborted && |run.outcomes| == |done| && TallyOf(done, run.outcomes) == tally
    && run.config == start.config && run.now == start.now && run.inconsistent == start.inconsistent
  }

  lemma VisitKeeps(a: Authority, run: Run, site: Site, f: Found, reply: Reply)
    requires !run.aborted
    ensures var r := Visit(a, run, site, f, reply).0;
      && r.config == run.config && r.now == run.now && r.inconsistent == run.inconsistent
      && (!r.aborted ==> |r.outcomes| == |run.outcomes| + 1 && r.outcomes[..|run.outcomes|] == run.outcomes)
      && (r.aborted ==> r == run.(aborted := true))
  {
    hide Decide;
    assert forall o: Outcome :: (run.outcomes + [o])[..|run.outcomes|] == run.outcomes;
  }

  lemma DoneNext(a: Authority, start: Run, site: Site, done: seq<Found>, replies: nat -> Reply,
                 run: Run, now: Site, tally: Tally, f: Found, next: Run, after: Site, tally': Tally)
    requires Done(a, start, site, done, replies, run, now, tally)
    requires Visit(a, run, now, f, replies(|run.outcomes|)) == (next, after) && !next.aborted
    requires |next.outcomes| == |run.outcomes| + 1 && tally' == Add(tally, NameOf(f), next.outcomes[|run.outcomes|])
    ensures Done(a, start, site, done + [f], replies, next, after, tally')
  {
    hide Visit, Add;
    VisitKeeps(a, run, now, f, replies(|run.outcomes|));
    assert (done + [f])[..|done|] == done;
    assert next.outcomes[..|next.outcomes| - 1] == run.outcomes;
    TallyPrefix(done, f, run.outcomes);
  }

  lemma {:induction false} TallyPrefix(fs: seq<Found>, f: Found, os: seq<Outcome>)
    requires |os| <= |fs|
    ensures TallyOf(fs + [f], os) == TallyOf(fs, os)
  {
    if os != [] {
      TallyPrefix(fs, f, os[..|os| - 1]);
    }
  }

  lemma {:induction false} AbortStays(a: Authority, start: Run, site: Site, fs: seq<Found>, replies: nat -> Reply,
                                      k: nat)
    requires k <= |fs| && VisitAll(a, start, site, fs[..k], replies).0.aborted
    ensures VisitAll(a, start, site, fs, replies) == VisitAll(a, start, site, fs[..k], replies)
    decreases |fs|
  {
    if k < |fs| {
      assert fs[..|fs| - 1][..k] == fs[..k];
      AbortStays(a, start, site, fs[..|fs| - 1], replies, k);
    } else {
      assert fs[..k] == fs;
    }
  }

  lemma VisitNext(a: Authority, start: Run, site: Site, done: seq<Found>, f: Found, replies: nat -> Reply)
    requires !VisitAll(a, start, site, done, replies).0.aborted
    ensures var (r, s) := VisitAll(a, start, site, done, replies);
      VisitAll(a, start, site, done + [f], replies) == Visit(a, r, s, f, replies(|r.outcomes|))
  {
    hide Visit;
    assert (done + [f])[..|done|] == done;
  }

  lemma FoundPrefix(roots: seq<Root>, i: nat, j: nat)
    requires i < |roots| && j < |Under(roots[i])|
    ensures FoundIn(roots[..i]) + Under(roots[i])[..j + 1] ==
            FoundIn(roots[..i]) + Under(roots[i])[..j] + [Under(roots[i])[j]]
  {
  }

  lemma FoundUpTo(roots: seq<Root>, i: nat, j: nat) returns (k: nat)
    requires i < |roots| && j <= |Under(roots[i])|
    ensures k <= |FoundIn(roots)| && FoundIn(roots)[..k] == FoundIn(roots[..i]) + Under(roots[i])[..j]
    decreases |roots|
  {
    var n := |roots| - 1;
    if i == n {
      k := |FoundIn(roots[..n])| + j;
    } else {
      k := FoundUpTo(roots[..n], i, j);
      assert roots[..n][..i] == roots[..i];
      assert FoundIn(roots)[..k] == FoundIn(roots[..n])[..k];
    }
  }

  /** `run_backup`. */
  method RunBackup(a: Authority, roots: seq<Root>, store: ObjectStore, file: LedgerFile, config: Config, now: nat,
                   replies: nat -> Reply)
    returns (r: Result<Report, BackupError>)
    modifies file, store
    ensures !GoodConfig(config) ==> r == Err(BadConfiguration)
    ensures GoodConfig(config) && !GoodRoots(roots) ==> r == Err(RootLabelNotApproved)
    ensures !GoodConfig(config) || !GoodRoots(roots) ==> file.text == old(file.text) && store.objects == old(store.objects)
    ensures GoodConfig(config) && GoodRoots(roots) ==>
              var (run, site) := VisitAll(a, Started(config, now, old(file.text)),
                                          Site(old(file.text), old(store.objects)), FoundIn(roots), replies);
              && Site(file.text, store.objects) == site
              && (run.aborted ==> r == Err(UncaughtError))
              && (!run.aborted ==> |run.outcomes| == |FoundIn(roots)| && r == Ok(ReportOf(FoundIn(roots), run)))
  {
    hide Visit, Read, Add;
    if config.horizonDays < 1 || config.windowDays < config.horizonDays || config.budgetBytes < 1 {
      return Err(BadConfiguration);
    }
    for i := 0 to |roots|
      invariant forall j | 0 <= j < i :: roots[j].rootLabel in ObjectName.APPROVED_LABELS
    {
      if roots[i].rootLabel !in ObjectName.APPROVED_LABELS {
        return Err(RootLabelNotApproved);
      }
    }
    var reading := file.Load();
    var ledger, inconsistent := reading.entries, reading.inconsistent;
    var windowBytes := SumWindow(ledger, WindowStart(config.windowDays, now));
    var tally, turn: nat := EMPTY_TALLY, 0;
    ghost var start, site := Started(config, now, file.text), Site(file.text, store.objects);
    ghost var run := start;
    for i := 0 to |roots|
      invariant Done(a, start, site, FoundIn(roots[..i]), replies, run, Site(file.text, store.objects), tally)
      invariant run.cache == ledger && run.windowBytes == windowBytes && turn == |run.outcomes|
    {
      var found := Under(roots[i]);
      assert FoundIn(roots[..i]) + found[..0] == FoundIn(roots[..i]);
      for j := 0 to |found|
        invariant Done(a, start, site, FoundIn(roots[..i]) + found[..j], replies, run, Site(file.text, store.objects), tally)
        invariant run.cache == ledger && run.windowBytes == windowBytes && turn == |run.outcomes|
      {
        ghost var done := FoundIn(roots[..i]) + found[..j];
        ghost var before := Site(file.text, store.objects);
        TallyCounts(done, run.outcomes);
        FoundPrefix(roots, i, j);
        VisitNext(a, start, site, done, found[j], replies);
        ghost var visited := Visit(a, run, before, found[j], replies(turn));
        VisitKeeps(a, run, before, found[j], replies(turn));
        var tally': Option<Tally>;
        ledger, windowBytes, tally' :=
          VisitOne(a, run, found[j], file, store, replies(turn), config, now, ledger, inconsistent, windowBytes, tally);
        if tally'.None? {
          ghost var k := FoundUpTo(roots, i, j + 1);
          AbortStays(a, start, site, FoundIn(roots), replies, k);
          return Err(UncaughtError);
        }
        DoneNext(a, start, site, done, replies, run, before, tally, found[j], visited.0, visited.1, tally'.value);
        run, tally, turn := visited.0, tally'.value, turn + 1;
      }
      assert found[..|found|] == found;
      FoundNext(roots, i);
    }
    assert roots[..|roots|] == roots;
    var unverified := set n | n in ledger && ledger[n].state.RemoteExistsUnverified?
                                          && ledger[n].firstAt * NANOS > WindowStart(config.windowDays, now);
    return Ok(Report(tally, inconsistent, windowBytes, config.budgetBytes, unverified,
                     map[Uploaded := InState(ledger, Uploaded), RestoreVerified := InState(ledger, RestoreVerified),
                         RemoteExistsUnverified := InState(ledger, RemoteExistsUnverified)]));
  }
}
