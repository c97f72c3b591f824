/**
 * When a backup run gives a report, and what it accounts for. Four things end a run without
 * one: a manifest that cannot be read, a status read that raises, a file that the archive
 * format cannot hold, and a PUT whose answer breaks off.
 */
module BackupOutcome {
  import opened Wrappers
  import opened Framing
  import opened Ledger
  import opened PartitionTar
  import opened CaptureArchive
  import opened Backup
  import opened BackupRun
  import opened BackupFacts
  import ObjectName
  import Text

  // ---- What ends a run -----------------------------------------------------

  /** A closed partition whose manifest is there and cannot be read. */
  predicate UnreadableManifest(a: Authority, f: Found) {
    !Holds(f.listing, OPEN_MARKER) && Holds(f.listing, MANIFEST) && ManifestOf(a, FilesIn(f.listing)).None?
  }

  predicate Packable(d: DirEntry, relative: string) {
    d.name in PARTITION_FILES && Fits(MemberOf(relative, d))
  }

  /** The first kept file, by name, that cannot be packed is one of the five, and does not fit. */
  ghost predicate Misfit(d: Listing, relative: string) {
    exists x :: x in d && IsKept(x) && x.name in PARTITION_FILES && !Fits(MemberOf(relative, x))
                && forall y | y in d && IsKept(y) && Text.Less(y.name, x.name) :: Packable(y, relative)
  }

  /** Everything up to the status read says yes to this partition. */
  predicate ReadyToRead(a: Authority, run: Run, f: Found) {
    && !Holds(f.listing, OPEN_MARKER) && Holds(f.listing, MANIFEST) && ManifestOf(a, FilesIn(f.listing)).Some?
    && NameOf(f) !in run.cache && NameOf(f) !in run.inconsistent
    && !Holds(f.listing, RAW_RECORDS) && Holds(f.listing, COMPACTION)
    && Age(run, f) <= run.config.horizonDays * DAY_SECONDS * NANOS
  }

  predicate StatusRaises(a: Authority, f: Found) {
    a.complete(FilesIn(f.listing)).None?
  }

  /** Everything up to the packing says yes to this partition. */
  predicate ReadyToPack(a: Authority, run: Run, f: Found) {
    && ReadyToRead(a, run, f)
    && IsComplete(a, FilesIn(f.listing))
    && SentCount(run.outcomes) < run.config.maxUploads && Count(run.outcomes, OverBudget) == 0
    && CanonicalPathError(a, FilesIn(f.listing), f.rootLabel, f.relative).None?
  }

  /** It is packed, and within the budget. */
  predicate ReadyToSend(a: Authority, run: Run, f: Found) {
    && ReadyToPack(a, run, f)
    && Pack(f.listing, f.relative).Ok?
    && run.windowBytes + |Pack(f.listing, f.relative).value| <= run.config.budgetBytes
  }

  /** Where the packing of a listing in order stops. */
  ghost predicate StopsAt(d: Listing, relative: string, i: nat) {
    && i < |d| && IsKept(d[i]) && !Packable(d[i], relative)
    && forall j | 0 <= j < i && IsKept(d[j]) :: Packable(d[j], relative)
  }

  lemma {:induction false} PackMembersStops(d: Listing, relative: string)
    ensures PackMembers(d, relative).Err? ==> exists i: nat :: StopsAt(d, relative, i)
    ensures forall i: nat | StopsAt(d, relative, i) ::
              PackMembers(d, relative) == Err(if d[i].name in PARTITION_FILES then DoesNotFit(d[i].name)
                                              else UnexpectedFile(d[i].name))
    decreases |d|
  {
    hide IsKept, Fits, MemberOf;
    if d != [] {
      var front := d[..|d| - 1];
      PackMembersStops(front, relative);
      if PackMembers(front, relative).Err? {
        var i: nat :| StopsAt(front, relative, i);
        assert StopsAt(d, relative, i);
      } else if PackMembers(d, relative).Err? {
        PackMembersOutcome(front, relative);
        assert forall j | 0 <= j < |front| :: d[j] == front[j] && front[j] in front;
        assert StopsAt(d, relative, |d| - 1);
      }
      forall i: nat | StopsAt(d, relative, i)
        ensures PackMembers(d, relative) == Err(if d[i].name in PARTITION_FILES then DoesNotFit(d[i].name)
                                                else UnexpectedFile(d[i].name)) {
        if i < |front| {
          assert StopsAt(front, relative, i);
        } else {
          PackMembersOutcome(front, relative);
          forall x | x in front && IsKept(x) ensures x.name in PARTITION_FILES && Fits(MemberOf(relative, x)) {
            var j :| 0 <= j < |front| && front[j] == x;
            assert Packable(d[j], relative);
          }
        }
      }
    }
  }

  lemma AscendingBefore(d: Listing, i: nat, j: nat)
    requires Ascending(d) && i < |d| && j < |d|
    ensures Text.Less(d[j].name, d[i].name) <==> j < i
  {
    hide Text.Less;
    Text.LessTotal(d[i].name, d[j].name);
  }

  lemma MisfitStops(d: Listing, s: Listing, relative: string) returns (i: nat)
    requires Ascending(s) && (forall x :: x in s <==> x in d) && Misfit(d, relative)
    ensures StopsAt(s, relative, i) && s[i].name in PARTITION_FILES
  {
    hide IsKept, Fits, MemberOf, Ascending;
    var x :| x in d && IsKept(x) && x.name in PARTITION_FILES && !Fits(MemberOf(relative, x))
             && forall y | y in d && IsKept(y) && Text.Less(y.name, x.name) :: Packable(y, relative);
    assert x in s;
    i :| 0 <= i < |s| && s[i] == x;
    forall j | 0 <= j < i && IsKept(s[j]) ensures Packable(s[j], relative) {
      AscendingBefore(s, i, j);
      assert s[j] in s;
    }
  }

  lemma StopIsMisfit(d: Listing, s: Listing, relative: string, i: nat)
    requires Ascending(s) && (forall x :: x in s <==> x in d)
    requires StopsAt(s, relative, i) && s[i].name in PARTITION_FILES
    ensures Misfit(d, relative)
  {
    hide IsKept, Fits, MemberOf, Ascending;
    assert s[i] in s;
    forall y | y in d && IsKept(y) && Text.Less(y.name, s[i].name) ensures Packable(y, relative) {
      assert y in s;
      var j :| 0 <= j < |s| && s[j] == y;
      AscendingBefore(s, i, j);
    }
  }

  /** Packing fails for a file that does not fit exactly when the first file that cannot be packed is such a one. */
  lemma {:induction false} MisfitExactly(d: Listing, relative: string)
    requires DistinctNames(d)
    ensures (Pack(d, relative).Err? && Pack(d, relative).error.DoesNotFit?) <==> Misfit(d, relative)
  {
    var s := Sorted(d);
    SortedAscending(d);
    hide Sorted, Ascending, Misfit, StopsAt, PackMembers;
    PackMembersStops(s, relative);
    if Misfit(d, relative) {
      var i := MisfitStops(d, s, relative);
    }
    if Pack(d, relative).Err? && Pack(d, relative).error.DoesNotFit? {
      var i: nat :| StopsAt(s, relative, i);
      StopInside(s, relative, i);
      StopIsMisfit(d, s, relative, i);
    }
  }

  lemma StopInside(s: Listing, relative: string, i: nat)
    requires StopsAt(s, relative, i)
    ensures i < |s|
  {
  }

  lemma DecidesBody(a: Authority, run: Run, f: Found)
    ensures ReadyToPack(a, run, f) ==>
              && Decide(a, run, f).Abort? == (Pack(f.listing, f.relative).Err? && Pack(f.listing, f.relative).error.DoesNotFit?)
              && (Decide(a, run, f).Send? <==> ReadyToSend(a, run, f))
    ensures !ReadyToPack(a, run, f) ==>
              && (Decide(a, run, f).Abort? <==> UnreadableManifest(a, f) || (ReadyToRead(a, run, f) && StatusRaises(a, f)))
              && !Decide(a, run, f).Send?
  {
    hide Holds, FilesIn, Pack, CanonicalPathError, Count, SentCount, NameOf;
  }

  /**
   * One partition ends the run by itself exactly when its manifest cannot be read, or it comes
   * to its status read and that raises, or it comes to packing a file that does not fit.
   */
  lemma {:induction false} AbortsExactly(a: Authority, run: Run, f: Found)
    requires DistinctNames(f.listing)
    ensures Decide(a, run, f).Abort? <==>
            || UnreadableManifest(a, f)
            || (ReadyToRead(a, run, f) && StatusRaises(a, f))
            || (ReadyToPack(a, run, f) && Misfit(f.listing, f.relative))
  {
    hide Decide, Pack, Misfit, ReadyToRead, StatusRaises, UnreadableManifest;
    DecidesBody(a, run, f);
    MisfitExactly(f.listing, f.relative);
    if ReadyToPack(a, run, f) {
      ReadyIsNotRaising(a, run, f);
    }
  }

  lemma ReadyIsNotRaising(a: Authority, run: Run, f: Found)
    requires ReadyToPack(a, run, f)
    ensures !StatusRaises(a, f) && !UnreadableManifest(a, f)
  {
    hide Holds, FilesIn, CanonicalPathError, Count, NameOf;
  }

  // ---- Whole runs ----------------------------------------------------------

  /** The run comes as far as the `k`-th partition, and ends there. */
  ghost predicate EndsAt(a: Authority, start: Run, site: Site, fs: seq<Found>, replies: nat -> Reply, k: nat) {
    k < |fs| && var (r, s) := VisitAll(a, start, site, fs[..k], replies);
      !r.aborted && Visit(a, r, s, fs[k], replies(k)).0.aborted
  }

  /** A run ends early exactly where some partition it comes to makes it; then nothing behind that one is looked at. */
  lemma {:induction false} RunEnds(a: Authority, start: Run, site: Site, fs: seq<Found>, replies: nat -> Reply)
    requires !start.aborted && start.outcomes == []
    ensures var r := VisitAll(a, start, site, fs, replies).0;
      && (!r.aborted ==> |r.outcomes| == |fs| && forall k :: !EndsAt(a, start, site, fs, replies, k))
      && (r.aborted ==> EndsAt(a, start, site, fs, replies, |r.outcomes|))
    decreases |fs|
  {
    hide Visit;
    if fs != [] {
      var n := |fs| - 1;
      RunEnds(a, start, site, fs[..n], replies);
      var (r, s) := VisitAll(a, start, site, fs[..n], replies);
      assert forall k: nat | k < n :: fs[..n][..k] == fs[..k] && fs[..n][k] == fs[k];
      assert forall k: nat | k < n :: EndsAt(a, start, site, fs[..n], replies, k) <==> EndsAt(a, start, site, fs, replies, k);
      if !r.aborted {
        VisitKeeps(a, r, s, fs[n], replies(|r.outcomes|));
      }
    }
  }

  /** The partition is one a run cannot get past. */
  ghost predicate StopsRun(a: Authority, run: Run, f: Found, reply: Reply) {
    || UnreadableManifest(a, f)
    || (ReadyToRead(a, run, f) && StatusRaises(a, f))
    || (ReadyToPack(a, run, f) && Misfit(f.listing, f.relative))
    || (ReadyToSend(a, run, f) && reply.BrokenOff?)
  }

  lemma {:induction false} VisitStops(a: Authority, run: Run, site: Site, f: Found, reply: Reply)
    requires !run.aborted && DistinctNames(f.listing)
    ensures Visit(a, run, site, f, reply).0.aborted <==> StopsRun(a, run, f, reply)
  {
    hide Decide, UnreadableManifest, ReadyToRead, StatusRaises, ReadyToPack, Misfit, Pack, AppendText, PutNew;
    AbortsExactly(a, run, f);
    DecidesBody(a, run, f);
  }

  /** The run as it comes to the `k`-th partition, and that is one it cannot get past. */
  ghost predicate StoppedAt(a: Authority, start: Run, site: Site, fs: seq<Found>, replies: nat -> Reply, k: nat) {
    k < |fs| && var r := VisitAll(a, start, site, fs[..k], replies).0; !r.aborted && StopsRun(a, r, fs[k], replies(k))
  }

  /**
   * A run reports exactly when it comes to no partition whose manifest cannot be read or whose
   * status read raises, packs none with a file that does not fit, and has no PUT broken off;
   * and then every partition found is in exactly one list or counter of the report, or was
   * quietly known.
   */
  lemma {:induction false} ReportsExactly(a: Authority, start: Run, site: Site, fs: seq<Found>, replies: nat -> Reply)
    requires !start.aborted && start.outcomes == [] && forall i | 0 <= i < |fs| :: DistinctNames(fs[i].listing)
    ensures var r := VisitAll(a, start, site, fs, replies).0;
      && (!r.aborted <==> forall k: nat | k < |fs| :: !StoppedAt(a, start, site, fs, replies, k))
      && (!r.aborted ==>
            |r.outcomes| == |fs| && TallySize(TallyOf(fs, r.outcomes)) + QuietCount(r.outcomes) == |fs|)
  {
    hide Visit, VisitAll, StopsRun;
    RunEnds(a, start, site, fs, replies);
    var r := VisitAll(a, start, site, fs, replies).0;
    forall k: nat | k < |fs|
      ensures EndsAt(a, start, site, fs, replies, k) <==> StoppedAt(a, start, site, fs, replies, k) {
      var (q, s) := VisitAll(a, start, site, fs[..k], replies);
      if !q.aborted {
        VisitStops(a, q, s, fs[k], replies(k));
      }
    }
    if !r.aborted {
      Accounting(fs, r.outcomes);
    }
  }

  /** How many directories hold a `session.json`. */
  function PartitionCount(ds: seq<Directory>): nat {
    if ds == [] then 0 else PartitionCount(ds[..|ds| - 1]) + if Holds(ds[|ds| - 1].listing, SESSION) then 1 else 0
  }

  function PartitionsUnder(roots: seq<Root>): nat {
    if roots == [] then 0 else PartitionsUnder(roots[..|roots| - 1]) + PartitionCount(roots[|roots| - 1].directories)
  }

  lemma {:induction false} UnderCount(rootLabel: string, ds: seq<Directory>)
    ensures |Partitions(rootLabel, ds)| == PartitionCount(ds)
  {
    hide Holds;
    if ds != [] {
      UnderCount(rootLabel, ds[..|ds| - 1]);
    }
  }

  lemma {:induction false} FoundCount(roots: seq<Root>)
    ensures |FoundIn(roots)| == PartitionsUnder(roots)
  {
    hide Partitions, PartitionCount;
    if roots != [] {
      FoundCount(roots[..|roots| - 1]);
      UnderCount(roots[|roots| - 1].rootLabel, roots[|roots| - 1].directories);
    }
  }

  /** The report of a run accounts for every partition under its roots, and there is one unless something stops the run. */
  lemma {:induction false} ReportAccounts(a: Authority, config: Config, now: nat, site: Site, roots: seq<Root>,
                                          replies: nat -> Reply)
    requires forall i | 0 <= i < |FoundIn(roots)| :: DistinctNames(FoundIn(roots)[i].listing)
    ensures var start, fs := Started(config, now, site.ledger), FoundIn(roots);
      var r := VisitAll(a, start, site, fs, replies).0;
      && (!r.aborted <==> forall k: nat | k < |fs| :: !StoppedAt(a, start, site, fs, replies, k))
      && (!r.aborted ==>
            |r.outcomes| == |fs| && TallySize(ReportOf(fs, r).tally) + QuietCount(r.outcomes) == PartitionsUnder(roots))
  {
    hide VisitAll, StoppedAt, Read, FoundIn, TallyOf;
    ReportsExactly(a, Started(config, now, site.ledger), site, FoundIn(roots), replies);
    FoundCount(roots);
  }

  /**
   * From the listings and the replies alone: an unreadable manifest anywhere ends the run;
   * without one, without a status read that raises, without a misfit, and with every answer
   * arriving whole, none does.
   */
  lemma {:induction false} ReportsByListing(a: Authority, start: Run, site: Site, fs: seq<Found>, replies: nat -> Reply)
    requires !start.aborted && start.outcomes == [] && forall i | 0 <= i < |fs| :: DistinctNames(fs[i].listing)
    ensures var r := VisitAll(a, start, site, fs, replies).0;
      && ((exists i :: 0 <= i < |fs| && UnreadableManifest(a, fs[i])) ==> r.aborted)
      && ((forall i: nat | i < |fs| :: && !UnreadableManifest(a, fs[i]) && !StatusRaises(a, fs[i])
                                       && !Misfit(fs[i].listing, fs[i].relative) && !replies(i).BrokenOff?) ==>
            !r.aborted)
  {
    hide VisitAll, UnreadableManifest, StatusRaises, ReadyToRead, ReadyToPack, ReadyToSend, Misfit;
    ReportsExactly(a, start, site, fs, replies);
    if i :| 0 <= i < |fs| && UnreadableManifest(a, fs[i]) {
      if VisitAll(a, start, site, fs[..i], replies).0.aborted {
        AbortStays(a, start, site, fs, replies, i);
      } else {
        assert StoppedAt(a, start, site, fs, replies, i);
      }
    }
  }

  // ---- Inputs that end a run -----------------------------------------------

  lemma {:induction false} FirstEndsRun(a: Authority, start: Run, site: Site, f: Found, behind: Found, replies: nat -> Reply)
    requires !start.aborted && Decide(a, start, f) == Abort
    ensures VisitAll(a, start, site, [f, behind], replies) == (start.(aborted := true), site)
  {
    hide Decide;
    assert [f][..0] == [] && VisitAll(a, start, site, [], replies) == (start, site);
    assert VisitAll(a, start, site, [f], replies) == Visit(a, start, site, f, replies(|start.outcomes|));
    assert [f, behind][..1] == [f];
  }

  /** A session and a manifest nobody can read: the run ends at it, and what is behind it is never met. */
  lemma {:induction false} JunkManifestEndsRun(a: Authority, start: Run, site: Site, junk: Bytes, session: Bytes,
                                               behind: Directory, replies: nat -> Reply)
    requires a.manifest(junk).None? && !start.aborted && Holds(behind.listing, SESSION)
    ensures var d := Directory("v1/junk", [DirEntry(SESSION, true, session), DirEntry(MANIFEST, true, junk)], 0);
      var fs := FoundIn([Root("r0", [d, behind])]);
      |fs| == 2 && VisitAll(a, start, site, fs, replies) == (start.(aborted := true), site)
  {
    var d := [DirEntry(SESSION, true, session), DirEntry(MANIFEST, true, junk)];
    var f := Found("r0", "v1/junk", d, 0);
    TwoFiles(session, junk);
    BothFound(Directory("v1/junk", d, 0), behind);
    assert Decide(a, start, f) == Abort by {
      hide NameOf, DecideRecorded;
    }
    FirstEndsRun(a, start, site, f, Found("r0", behind.relative, behind.listing, behind.finalizedAt), replies);
  }

  lemma TwoFiles(session: Bytes, manifest: Bytes)
    ensures var d := [DirEntry(SESSION, true, session), DirEntry(MANIFEST, true, manifest)];
      && Holds(d, SESSION) && Holds(d, MANIFEST) && !Holds(d, OPEN_MARKER) && !Holds(d, RAW_RECORDS)
      && FilesIn(d) == map[SESSION := session, MANIFEST := manifest]
  {
    var d := [DirEntry(SESSION, true, session), DirEntry(MANIFEST, true, manifest)];
    assert d[0].name == SESSION && d[1].name == MANIFEST;
    NamesApart();
    assert d[..1] == [d[0]] && d[..1][..0] == [];
    assert FilesIn(d[..1]) == map[SESSION := session];
  }

  lemma NamesApart()
    ensures SESSION != MANIFEST && SESSION != COMPACTION && MANIFEST != COMPACTION
    ensures OPEN_MARKER !in {SESSION, MANIFEST, COMPACTION} && RAW_RECORDS !in {SESSION, MANIFEST, COMPACTION}
  {
    assert |SESSION| == 12 && |MANIFEST| == 13 && |COMPACTION| == 15 && |OPEN_MARKER| == 4 && |RAW_RECORDS| == 14;
  }

  lemma BothFound(d: Directory, behind: Directory)
    requires Holds(d.listing, SESSION) && Holds(behind.listing, SESSION)
    ensures FoundIn([Root("r0", [d, behind])]) ==
            [Found("r0", d.relative, d.listing, d.finalizedAt),
             Found("r0", behind.relative, behind.listing, behind.finalizedAt)]
  {
    hide Holds;
    var ds := [d, behind];
    assert ds[..1] == [d] && [d][..0] == [];
    assert Partitions("r0", [d]) == [Found("r0", d.relative, d.listing, d.finalizedAt)];
    assert [Root("r0", ds)][..0] == [];
  }

  /** The two characters of an empty JSON list. */
  const EMPTY_LIST: Bytes := [0x5B, 0x5D]

  /**
   * A compacted directory with a readable manifest, not on record and within the horizon, whose
   * session is a JSON list and no object. The status read raises on it; nothing is packed, and
   * yet the run ends at it.
   */
  lemma {:induction false} ListSessionEndsRun(a: Authority, start: Run, site: Site, manifest: Bytes, compaction: Bytes,
                                              finalizedAt: int, behind: Directory, replies: nat -> Reply)
    requires !start.aborted && Holds(behind.listing, SESSION)
    requires a.manifest(manifest).Some?
    requires a.complete(map[COMPACTION := compaction, SESSION := EMPTY_LIST, MANIFEST := manifest]).None?
    requires start.now - finalizedAt <= start.config.horizonDays * DAY_SECONDS * NANOS
    requires ObjectName.ObjectName("r0", "v1/list") !in start.cache
    requires ObjectName.ObjectName("r0", "v1/list") !in start.inconsistent
    ensures var d := Directory("v1/list", [DirEntry(COMPACTION, true, compaction), DirEntry(SESSION, true, EMPTY_LIST),
                                           DirEntry(MANIFEST, true, manifest)], finalizedAt);
      var fs := FoundIn([Root("r0", [d, behind])]);
      && |fs| == 2 && !UnreadableManifest(a, fs[0])
      && VisitAll(a, start, site, fs, replies) == (start.(aborted := true), site)
  {
    var d := [DirEntry(COMPACTION, true, compaction), DirEntry(SESSION, true, EMPTY_LIST), DirEntry(MANIFEST, true, manifest)];
    var f := Found("r0", "v1/list", d, finalizedAt);
    ThreeFiles(compaction, EMPTY_LIST, manifest);
    BothFound(Directory("v1/list", d, finalizedAt), behind);
    assert Decide(a, start, f) == Abort by {
      hide Holds, FilesIn, ObjectName.ObjectName, DecideComplete;
    }
    FirstEndsRun(a, start, site, f, Found("r0", behind.relative, behind.listing, behind.finalizedAt), replies);
  }

  lemma ThreeFiles(compaction: Bytes, session: Bytes, manifest: Bytes)
    ensures var d := [DirEntry(COMPACTION, true, compaction), DirEntry(SESSION, true, session),
                      DirEntry(MANIFEST, true, manifest)];
      && Holds(d, SESSION) && Holds(d, MANIFEST) && Holds(d, COMPACTION) && !Holds(d, OPEN_MARKER) && !Holds(d, RAW_RECORDS)
      && FilesIn(d) == map[COMPACTION := compaction, SESSION := session, MANIFEST := manifest]
  {
    var d := [DirEntry(COMPACTION, true, compaction), DirEntry(SESSION, true, session), DirEntry(MANIFEST, true, manifest)];
    assert d[0].name == COMPACTION && d[1].name == SESSION && d[2].name == MANIFEST;
    NamesApart();
    assert d[..2] == [d[0], d[1]] && d[..2][..1] == [d[0]] && [d[0]][..0] == [];
    assert FilesIn([d[0]]) == map[COMPACTION := compaction];
    assert FilesIn(d[..2]) == map[COMPACTION := compaction, SESSION := session];
  }

  /** Of five files, one of 8 GiB or more makes a misfit. */
  lemma OversizedIsMisfit(d: Listing, relative: string, x: DirEntry)
    requires DistinctNames(d) && (forall y | y in d && IsKept(y) :: y.name in PARTITION_FILES)
    requires x in d && IsKept(x) && |x.data| >= SIZE_LIMIT
    ensures Misfit(d, relative)
  {
    var s := Sorted(d);
    SortedAscending(d);
    assert x in s;
    hide Sorted, Ascending, Misfit, PackMembers, IsKept;
    PackMembersStops(s, relative);
    PackMembersOutcome(s, relative);
    assert !Fits(MemberOf(relative, x));
    var i: nat :| StopsAt(s, relative, i);
    assert s[i] in s;
    StopIsMisfit(d, s, relative, i);
  }

  /** A partition that is ready in every way but holds such a file: the run ends at it as well. */
  lemma {:induction false} OversizedFileEndsRun(a: Authority, start: Run, site: Site, f: Found, x: DirEntry, behind: Found,
                                                replies: nat -> Reply)
    requires !start.aborted && ReadyToPack(a, start, f) && DistinctNames(f.listing)
    requires forall y | y in f.listing && IsKept(y) :: y.name in PARTITION_FILES
    requires x in f.listing && IsKept(x) && |x.data| >= SIZE_LIMIT
    ensures VisitAll(a, start, site, [f, behind], replies) == (start.(aborted := true), site)
  {
    hide Decide, ReadyToPack, ReadyToRead, Misfit, IsKept;
    OversizedIsMisfit(f.listing, f.relative, x);
    AbortsExactly(a, start, f);
    FirstEndsRun(a, start, site, f, behind, replies);
  }

  /** A PUT that is stored while its answer breaks off: the run ends with the object in the bucket and no line for it. */
  lemma {:induction false} BrokenPutEndsRun(a: Authority, start: Run, site: Site, f: Found, behind: Found,
                                            replies: nat -> Reply)
    requires !start.aborted && start.outcomes == [] && ReadyToSend(a, start, f) && replies(0) == BrokenOff(true)
    ensures VisitAll(a, start, site, [f, behind], replies) ==
            (start.(aborted := true), site.(objects := PutNew(site.objects, NameOf(f), Pack(f.listing, f.relative).value)))
  {
    hide ReadyToPack, Pack, PutNew, NameOf;
    DecidesBody(a, start, f);
    SendsPacked(a, start, f);
    hide Decide;
    assert [f][..0] == [] && VisitAll(a, start, site, [], replies) == (start, site);
    assert VisitAll(a, start, site, [f], replies) == Visit(a, start, site, f, replies(0));
    assert [f, behind][..1] == [f];
  }

  lemma SendsPacked(a: Authority, run: Run, f: Found)
    requires Decide(a, run, f).Send?
    ensures Pack(f.listing, f.relative) == Ok(Decide(a, run, f).body)
  {
    hide Decide;
    SendMeans(a, run, f, Decide(a, run, f).body, Decide(a, run, f).manifestHash);
  }
}
