/**
 * The table of a backup run: what it makes of a partition, read off the directory, the
 * ledger, the limits and the clock; what the file then says; and where the name stands in
 * the report.
 */
module BackupTable {
  import opened Wrappers
  import opened Framing
  import opened Ledger
  import opened PartitionTar
  import opened CaptureArchive
  import opened Backup
  import opened BackupRun
  import opened BackupFacts

  // ---- One partition -------------------------------------------------------

  /** What a run has done so far, as far as it bears on the next partition. */
  datatype Spent = Spent(sent: nat, withheld: nat, windowBytes: int)

  function SpentBy(run: Run): Spent {
    Spent(SentCount(run.outcomes), Count(run.outcomes, OverBudget), run.windowBytes)
  }

  predicate Closed(f: Found) {
    !Holds(f.listing, "OPEN") && Holds(f.listing, "MANIFEST.json")
  }

  predicate Compacted(f: Found) {
    !Holds(f.listing, "records.ndjson") && Holds(f.listing, "COMPACTION.json")
  }

  function ManifestHash(a: Authority, f: Found): Option<string> {
    match ManifestOf(a, FilesIn(f.listing))
    case None => None
    case Some(m) => Some(m.contentHash)
  }

  /** Closed, and its name is not in the ledger file in any way. */
  predicate IsNew(g: Reading, f: Found) {
    Closed(f) && NameOf(f) !in g.entries && NameOf(f) !in g.inconsistent
  }

  /** New, compacted and finalized within the horizon. */
  predicate IsDue(c: Config, now: int, g: Reading, f: Found) {
    IsNew(g, f) && Compacted(f) && now - f.finalizedAt <= c.horizonDays * 86_400 * 1_000_000_000
  }

  /** Due and COMPLETE, with an upload left, and nothing withheld for the budget before it. */
  predicate MayBeSent(a: Authority, c: Config, now: int, g: Reading, f: Found, spent: Spent) {
    && IsDue(c, now, g, f) && a.complete(FilesIn(f.listing)) == Some(true)
    && spent.sent < c.maxUploads && spent.withheld == 0
  }

  function Misplacement(a: Authority, f: Found): Option<PathError> {
    CanonicalPathError(a, FilesIn(f.listing), f.rootLabel, f.relative)
  }

  predicate FitsBudget(c: Config, f: Found, spent: Spent) {
    var packed := Pack(f.listing, f.relative);
    packed.Ok? && spent.windowBytes + |packed.value| <= c.budgetBytes
  }

  /** Packed at its canonical place and within the budget. */
  predicate IsSent(a: Authority, c: Config, now: int, g: Reading, f: Found, spent: Spent) {
    MayBeSent(a, c, now, g, f, spent) && Misplacement(a, f).None? && FitsBudget(c, f, spent)
  }

  /** When a partition that does not end the run is met with this outcome. */
  ghost predicate Row(o: Outcome, a: Authority, c: Config, now: int, g: Reading, objects: map<string, Bytes>, f: Found,
                      spent: Spent, reply: Reply) {
    match o
    case AlreadyRecorded =>
      Closed(f) && NameOf(f) in g.entries && ManifestHash(a, f) == Some(g.entries[NameOf(f)].manifestHash)
    case OtherManifest =>
      Closed(f) && NameOf(f) in g.entries && ManifestHash(a, f) != Some(g.entries[NameOf(f)].manifestHash)
    case Disagreeing =>
      Closed(f) && NameOf(f) !in g.entries && NameOf(f) in g.inconsistent
    case Stale =>
      IsNew(g, f) && !Compacted(f) && now - f.finalizedAt > 7_200 * 1_000_000_000
    case Pending =>
      IsNew(g, f) && !Compacted(f) && now - f.finalizedAt <= 7_200 * 1_000_000_000
    case BeyondHorizon =>
      IsNew(g, f) && Compacted(f) && now - f.finalizedAt > c.horizonDays * 86_400 * 1_000_000_000
    case Skipped =>
      !Closed(f) || (IsDue(c, now, g, f) && a.complete(FilesIn(f.listing)) == Some(false))
    case Deferred =>
      IsDue(c, now, g, f) && a.complete(FilesIn(f.listing)) == Some(true) && spent.sent >= c.maxUploads
    case OverBudget =>
      && IsDue(c, now, g, f) && a.complete(FilesIn(f.listing)) == Some(true) && spent.sent < c.maxUploads
      && (spent.withheld > 0
          || (Misplacement(a, f).None? && Pack(f.listing, f.relative).Ok? && !FitsBudget(c, f, spent)))
    case Failed(PathFailure(e)) =>
      MayBeSent(a, c, now, g, f, spent) && Misplacement(a, f) == Some(e)
    case Failed(UnexpectedPartitionFile(n)) =>
      MayBeSent(a, c, now, g, f, spent) && Misplacement(a, f).None? && Pack(f.listing, f.relative) == Err(UnexpectedFile(n))
    case Failed(PutFailed) =>
      IsSent(a, c, now, g, f, spent) && reply.TransportError?
    case Sent =>
      IsSent(a, c, now, g, f, spent) && reply.Answered? && NameOf(f) !in objects
    case Conflict =>
      IsSent(a, c, now, g, f, spent) && reply.Answered? && NameOf(f) in objects
  }

  /**
   * The table of one visit: a partition that does not end the run is met with an outcome
   * exactly when it meets that row, for every outcome there is.
   */
  lemma {:induction false} VisitTable(a: Authority, run: Run, site: Site, f: Found, reply: Reply, o: Outcome)
    requires !run.aborted && !Visit(a, run, site, f, reply).0.aborted
    ensures var r := Visit(a, run, site, f, reply).0;
      && |r.outcomes| == |run.outcomes| + 1
      && (r.outcomes[|run.outcomes|] == o <==>
          Row(o, a, run.config, run.now, Reading(run.cache, run.inconsistent), site.objects, f, SpentBy(run), reply))
  {
    hide Holds, FilesIn, NameOf, CanonicalPathError, Pack, Count, ManifestOf, AppendText, PutNew, EntryOf;
  }

  // ---- The whole run -------------------------------------------------------

  /** The `i`-th partition meets this row, with the file, the bucket and the run as they are when the run comes to it. */
  ghost predicate Meets(a: Authority, start: Run, site: Site, fs: seq<Found>, replies: nat -> Reply, i: nat, o: Outcome) {
    i < |fs| && var (r, s) := VisitAll(a, start, site, fs[..i], replies);
      Row(o, a, start.config, start.now, Read(s.ledger), s.objects, fs[i], SpentBy(r), replies(i))
  }

  ghost predicate Fresh(start: Run, site: Site) {
    CacheAgrees(start, site) && !start.aborted && start.outcomes == []
  }

  lemma {:induction false} OutcomeAt(a: Authority, start: Run, site: Site, fs: seq<Found>, replies: nat -> Reply, i: nat,
                                     o: Outcome)
    requires Fresh(start, site) && !VisitAll(a, start, site, fs, replies).0.aborted && i < |fs|
    ensures var r := VisitAll(a, start, site, fs, replies).0;
      && r.config == start.config && r.now == start.now && |r.outcomes| == |fs|
      && (r.outcomes[i] == o <==> Meets(a, start, site, fs, replies, i, o))
    decreases |fs|
  {
    hide Visit, Read, Row, SpentBy;
    var n := |fs| - 1;
    var (r, s) := VisitAll(a, start, site, fs[..n], replies);
    RunLength(a, start, site, fs[..n], replies);
    VisitKeeps(a, r, s, fs[n], replies(|r.outcomes|));
    if i < n {
      OutcomeAt(a, start, site, fs[..n], replies, i, o);
      assert fs[..n][..i] == fs[..i];
    } else {
      RunAgrees(a, start, site, fs[..n], replies);
      VisitTable(a, r, s, fs[n], replies(|r.outcomes|), o);
    }
  }

  lemma {:induction false} RunLength(a: Authority, start: Run, site: Site, fs: seq<Found>, replies: nat -> Reply)
    requires start.outcomes == [] && !start.aborted && !VisitAll(a, start, site, fs, replies).0.aborted
    ensures var r := VisitAll(a, start, site, fs, replies).0;
      r.config == start.config && r.now == start.now && r.inconsistent == start.inconsistent && |r.outcomes| == |fs|
  {
    hide Visit;
    if fs != [] {
      var n := |fs| - 1;
      var (r, s) := VisitAll(a, start, site, fs[..n], replies);
      RunLength(a, start, site, fs[..n], replies);
      VisitKeeps(a, r, s, fs[n], replies(|r.outcomes|));
    }
  }

  // ---- The report ----------------------------------------------------------

  /** The places in the run at which an outcome was met. */
  function Places(os: seq<Outcome>, o: Outcome): set<nat> {
    set i: nat | i < |os| && os[i] == o
  }

  lemma {:induction false} CountIsPlaces(os: seq<Outcome>, o: Outcome)
    ensures Count(os, o) == |Places(os, o)|
  {
    if os == [] {
      assert Places(os, o) == {};
    } else {
      var front := os[..|os| - 1];
      CountIsPlaces(front, o);
      if os[|os| - 1] == o {
        assert Places(os, o) == Places(front, o) + {|os| - 1};
      } else {
        assert Places(os, o) == Places(front, o);
      }
    }
  }

  /** Some partition of this name was met with this outcome. */
  predicate NamedWith(fs: seq<Found>, os: seq<Outcome>, name: string, o: Outcome) {
    exists i: nat :: i < |os| && i < |fs| && NameOf(fs[i]) == name && os[i] == o
  }

  lemma NamedNext(fs: seq<Found>, os: seq<Outcome>, name: string, o: Outcome)
    requires os != [] && |os| <= |fs|
    ensures NamedWith(fs, os, name, o) <==>
            NamedWith(fs, os[..|os| - 1], name, o) || (NameOf(fs[|os| - 1]) == name && os[|os| - 1] == o)
  {
    hide NameOf;
    var front := os[..|os| - 1];
    if NamedWith(fs, front, name, o) {
      var i: nat :| i < |front| && i < |fs| && NameOf(fs[i]) == name && front[i] == o;
      assert os[i] == o;
    }
    if NamedWith(fs, os, name, o) {
      var i: nat :| i < |os| && i < |fs| && NameOf(fs[i]) == name && os[i] == o;
      assert i < |front| ==> front[i] == o;
    }
  }

  /** Each list of the tally names those met with its outcome, and no others; each counter counts them. */
  ghost predicate ListsName(t: Tally, fs: seq<Found>, os: seq<Outcome>) {
    && (forall n :: n in t.uploaded <==> NamedWith(fs, os, n, Sent))
    && (forall n :: n in t.conflicts <==> NamedWith(fs, os, n, Conflict))
    && (forall n :: n in t.pending <==> NamedWith(fs, os, n, Pending))
    && (forall n :: n in t.stale <==> NamedWith(fs, os, n, Stale))
    && (forall n :: (n, HoldsAnotherManifest) in t.failures <==> NamedWith(fs, os, n, OtherManifest))
    && (forall n, e :: (n, VisitFailed(e)) in t.failures <==> NamedWith(fs, os, n, Failed(e)))
  }

  ghost predicate CountersCount(t: Tally, os: seq<Outcome>) {
    && |t.uploaded| == |Places(os, Sent)| && |t.conflicts| == |Places(os, Conflict)|
    && |t.pending| == |Places(os, Pending)| && |t.stale| == |Places(os, Stale)|
    && t.skipped == |Places(os, Skipped)| && t.deferred == |Places(os, Deferred)|
    && t.beyondHorizon == |Places(os, BeyondHorizon)| && t.overBudget == |Places(os, OverBudget)|
  }

  /** What one more outcome adds to each list. */
  ghost predicate Adds(t: Tally, after: Tally, name: string, o: Outcome) {
    && (forall n :: n in after.uploaded <==> n in t.uploaded || (n == name && o == Sent))
    && (forall n :: n in after.conflicts <==> n in t.conflicts || (n == name && o == Conflict))
    && (forall n :: n in after.pending <==> n in t.pending || (n == name && o == Pending))
    && (forall n :: n in after.stale <==> n in t.stale || (n == name && o == Stale))
    && (forall n :: (n, HoldsAnotherManifest) in after.failures <==>
                    (n, HoldsAnotherManifest) in t.failures || (n == name && o == OtherManifest))
    && (forall n, e :: (n, VisitFailed(e)) in after.failures <==>
                       (n, VisitFailed(e)) in t.failures || (n == name && o == Failed(e)))
  }

  lemma AddAdds(t: Tally, name: string, o: Outcome)
    ensures Adds(t, Add(t, name, o), name, o)
  {
  }

  lemma {:induction false} TallyNames(fs: seq<Found>, os: seq<Outcome>)
    requires |os| <= |fs|
    ensures ListsName(TallyOf(fs, os), fs, os)
  {
    hide NameOf, NamedWith, Add;
    if os == [] {
      forall n, o ensures !NamedWith(fs, os, n, o) {
        NothingNamed(fs, n, o);
      }
    } else {
      var front, name, o := os[..|os| - 1], NameOf(fs[|os| - 1]), os[|os| - 1];
      TallyNames(fs, front);
      AddAdds(TallyOf(fs, front), name, o);
      NamesJoin(TallyOf(fs, front), TallyOf(fs, os), fs, os);
    }
  }

  lemma NamesJoin(t: Tally, after: Tally, fs: seq<Found>, os: seq<Outcome>)
    requires os != [] && |os| <= |fs|
    requires ListsName(t, fs, os[..|os| - 1]) && Adds(t, after, NameOf(fs[|os| - 1]), os[|os| - 1])
    ensures ListsName(after, fs, os)
  {
    hide NameOf, NamedWith;
    forall n, o ensures NamedWith(fs, os, n, o) <==>
                        NamedWith(fs, os[..|os| - 1], n, o) || (NameOf(fs[|os| - 1]) == n && os[|os| - 1] == o) {
      NamedNext(fs, os, n, o);
    }
  }

  lemma NothingNamed(fs: seq<Found>, n: string, o: Outcome)
    ensures !NamedWith(fs, [], n, o)
  {
  }

  lemma {:induction false} TallyPlaces(fs: seq<Found>, os: seq<Outcome>)
    requires |os| <= |fs|
    ensures CountersCount(TallyOf(fs, os), os)
  {
    hide NameOf;
    TallyCountsAll(fs, os);
    CountIsPlaces(os, Sent);
    CountIsPlaces(os, Conflict);
    CountIsPlaces(os, Pending);
    CountIsPlaces(os, Stale);
    CountIsPlaces(os, Skipped);
    CountIsPlaces(os, Deferred);
    CountIsPlaces(os, BeyondHorizon);
    CountIsPlaces(os, OverBudget);
    hide Places, Count, TallyOf;
  }

  lemma {:induction false} TallyCountsAll(fs: seq<Found>, os: seq<Outcome>)
    requires |os| <= |fs|
    ensures var t := TallyOf(fs, os);
      && |t.uploaded| == Count(os, Sent) && |t.conflicts| == Count(os, Conflict)
      && |t.pending| == Count(os, Pending) && |t.stale| == Count(os, Stale)
      && t.skipped == Count(os, Skipped) && t.deferred == Count(os, Deferred)
      && t.beyondHorizon == Count(os, BeyondHorizon) && t.overBudget == Count(os, OverBudget)
  {
    hide NameOf;
    if os != [] {
      TallyCountsAll(fs, os[..|os| - 1]);
    }
  }

  /** Some partition found of this name meets this row. */
  ghost predicate SomeMeets(a: Authority, start: Run, site: Site, fs: seq<Found>, replies: nat -> Reply, name: string,
                            o: Outcome) {
    exists i: nat :: i < |fs| && NameOf(fs[i]) == name && Meets(a, start, site, fs, replies, i, o)
  }

  /** How many partitions found meet this row. */
  ghost function HowMany(a: Authority, start: Run, site: Site, fs: seq<Found>, replies: nat -> Reply, o: Outcome): nat {
    |set i: nat | i < |fs| && Meets(a, start, site, fs, replies, i, o)|
  }

  lemma NamedIsMet(a: Authority, start: Run, site: Site, fs: seq<Found>, replies: nat -> Reply, name: string, o: Outcome)
    requires Fresh(start, site) && !VisitAll(a, start, site, fs, replies).0.aborted
    ensures var os := VisitAll(a, start, site, fs, replies).0.outcomes;
      && |os| == |fs|
      && (NamedWith(fs, os, name, o) <==> SomeMeets(a, start, site, fs, replies, name, o))
      && |Places(os, o)| == HowMany(a, start, site, fs, replies, o)
  {
    hide VisitAll, Meets, NameOf;
    RunLength(a, start, site, fs, replies);
    hide Fresh;
    var os := VisitAll(a, start, site, fs, replies).0.outcomes;
    forall i: nat | i < |fs| ensures os[i] == o <==> Meets(a, start, site, fs, replies, i, o) {
      OutcomeAt(a, start, site, fs, replies, i, o);
    }
    assert Places(os, o) == set i: nat | i < |fs| && Meets(a, start, site, fs, replies, i, o);
  }

  /**
   * The report, list by list: a name stands in one exactly when some partition found under
   * it meets the row of that list, a failure bears the reason of its row, and each counter
   * says how many partitions meet its row.
   */
  lemma {:induction false} ReportTable(a: Authority, config: Config, now: nat, site: Site, roots: seq<Root>,
                                       replies: nat -> Reply, n: string, e: Failure)
    requires !VisitAll(a, Started(config, now, site.ledger), site, FoundIn(roots), replies).0.aborted
    ensures var start, fs := Started(config, now, site.ledger), FoundIn(roots);
      var run := VisitAll(a, start, site, fs, replies).0;
      && |run.outcomes| == |fs|
      && var t := ReportOf(fs, run).tally;
      && (n in t.uploaded <==> SomeMeets(a, start, site, fs, replies, n, Sent))
      && (n in t.conflicts <==> SomeMeets(a, start, site, fs, replies, n, Conflict))
      && (n in t.pending <==> SomeMeets(a, start, site, fs, replies, n, Pending))
      && (n in t.stale <==> SomeMeets(a, start, site, fs, replies, n, Stale))
      && ((n, HoldsAnotherManifest) in t.failures <==> SomeMeets(a, start, site, fs, replies, n, OtherManifest))
      && ((n, VisitFailed(e)) in t.failures <==> SomeMeets(a, start, site, fs, replies, n, Failed(e)))
      && |t.uploaded| == HowMany(a, start, site, fs, replies, Sent)
      && |t.conflicts| == HowMany(a, start, site, fs, replies, Conflict)
      && t.skipped == HowMany(a, start, site, fs, replies, Skipped)
      && t.deferred == HowMany(a, start, site, fs, replies, Deferred)
      && t.beyondHorizon == HowMany(a, start, site, fs, replies, BeyondHorizon)
      && t.overBudget == HowMany(a, start, site, fs, replies, OverBudget)
  {
    hide VisitAll, Read, TallyOf, NamedWith, SomeMeets, HowMany, Places;
    var start, fs := Started(config, now, site.ledger), FoundIn(roots);
    var os := VisitAll(a, start, site, fs, replies).0.outcomes;
    StartedAgrees(config, now, site);
    forall o ensures NamedWith(fs, os, n, o) <==> SomeMeets(a, start, site, fs, replies, n, o)
             ensures |os| == |fs| && |Places(os, o)| == HowMany(a, start, site, fs, replies, o) {
      NamedIsMet(a, start, site, fs, replies, n, o);
    }
    hide FoundIn, Started;
    assert |Places(os, Sent)| == HowMany(a, start, site, fs, replies, Sent);
    TallyNames(fs, os);
    TallyPlaces(fs, os);
  }

  /** The names met with an outcome, in the order of the run. */
  function NamesMet(fs: seq<Found>, os: seq<Outcome>, o: Outcome): seq<string>
    requires |os| <= |fs|
  {
    if os == [] then []
    else NamesMet(fs, os[..|os| - 1], o) + if os[|os| - 1] == o then [NameOf(fs[|os| - 1])] else []
  }

  /** The lists of names keep that order. */
  lemma {:induction false} TallyInOrder(fs: seq<Found>, os: seq<Outcome>)
    requires |os| <= |fs|
    ensures var t := TallyOf(fs, os);
      && t.uploaded == NamesMet(fs, os, Sent) && t.conflicts == NamesMet(fs, os, Conflict)
      && t.pending == NamesMet(fs, os, Pending) && t.stale == NamesMet(fs, os, Stale)
  {
    hide NameOf;
    if os != [] {
      TallyInOrder(fs, os[..|os| - 1]);
    }
  }

  // ---- What the ledger at the start decides --------------------------------

  ghost predicate NamesApart(fs: seq<Found>) {
    forall i, j | 0 <= i < j < |fs| :: NameOf(fs[i]) != NameOf(fs[j])
  }

  /** A run enters no name but those it has met. */
  lemma {:induction false} CacheElsewhere(a: Authority, start: Run, site: Site, fs: seq<Found>, replies: nat -> Reply, n: string)
    requires forall i | 0 <= i < |fs| :: NameOf(fs[i]) != n
    ensures var r := VisitAll(a, start, site, fs, replies).0;
      && r.inconsistent == start.inconsistent
      && (n in r.cache <==> n in start.cache) && (n in start.cache ==> r.cache[n] == start.cache[n])
  {
    hide Decide, NameOf, AppendText, PutNew;
    if fs != [] {
      assert NameOf(fs[|fs| - 1]) != n;
      CacheElsewhere(a, start, site, fs[..|fs| - 1], replies, n);
    }
  }

  /** These outcomes rest on the ledger as the run found it, whatever the run sends before it comes there. */
  predicate RestsOnTheStart(o: Outcome) {
    o.AlreadyRecorded? || o.OtherManifest? || o.Disagreeing? || o.Stale? || o.Pending? || o.BeyondHorizon?
  }

  /**
   * Where no name is found twice: whether a partition is known, of another manifest, disagreed
   * about, stale, pending or beyond the horizon is decided by its directory, the clock and the
   * ledger file at the start of the run.
   */
  lemma {:induction false} DecidedAtTheStart(a: Authority, start: Run, site: Site, fs: seq<Found>, replies: nat -> Reply,
                                             i: nat, o: Outcome)
    requires Fresh(start, site) && NamesApart(fs) && RestsOnTheStart(o)
    requires i < |fs| && !VisitAll(a, start, site, fs, replies).0.aborted
    ensures |VisitAll(a, start, site, fs, replies).0.outcomes| == |fs|
    ensures VisitAll(a, start, site, fs, replies).0.outcomes[i] == o <==>
            Row(o, a, start.config, start.now, Read(site.ledger), site.objects, fs[i], SpentBy(start), replies(i))
  {
    hide VisitAll, Read, NameOf, Holds, SpentBy, ManifestHash;
    OutcomeAt(a, start, site, fs, replies, i, o);
    RunAgrees(a, start, site, fs[..i], replies);
    CacheElsewhere(a, start, site, fs[..i], replies, NameOf(fs[i]));
  }

  // ---- What the file says afterwards ---------------------------------------

  /**
   * What an answered PUT leaves: in the file, one more entry with the manifest's hash, the
   * digest and size of the packed bytes, the clock's second, and UPLOADED or
   * REMOTE_EXISTS_UNVERIFIED as the bucket did not or did hold the name; in the bucket, the
   * packed bytes, unless something was there.
   */
  lemma {:induction false} PutReads(a: Authority, run: Run, site: Site, f: Found)
    requires !run.aborted && Read(site.ledger).entries.Keys == run.cache.Keys
    requires var g := Reading(run.cache, run.inconsistent);
      IsSent(a, run.config, run.now, g, f, SpentBy(run)) && ManifestHash(a, f).Some?
    ensures var (r, s) := Visit(a, run, site, f, Answered);
      var g, after, body := Read(site.ledger), Read(s.ledger), Pack(f.listing, f.relative).value;
      && !r.aborted && after.inconsistent == g.inconsistent
      && after.entries == g.entries[NameOf(f) := Entry(ManifestHash(a, f).value, a.sha(body), |body|, run.now / 1_000_000_000,
           if NameOf(f) in site.objects then RemoteExistsUnverified else Uploaded)]
      && s.objects == (if NameOf(f) in site.objects then site.objects else site.objects[NameOf(f) := body])
      && r.cache == run.cache[NameOf(f) := after.entries[NameOf(f)]]
      && r.windowBytes == run.windowBytes + |body|
  {
    hide Holds, FilesIn, NameOf, CanonicalPathError, Pack, Count, ManifestOf, AppendText, Read, Fold;
    var body, m := Pack(f.listing, f.relative).value, ManifestOf(a, FilesIn(f.listing)).value;
    assert Decide(a, run, f) == Send(body, m.contentHash);
    hide Decide;
    var r := SentRecord(a, run, f, body, m.contentHash, NameOf(f) !in site.objects);
    AppendRead(site.ledger, r);
    FoldSent(Read(site.ledger), r);
  }

  lemma FoldSent(g: Reading, r: Record)
    requires r.name !in g.entries && (r.outcome == UPLOADED || r.outcome == REMOTE_EXISTS_UNVERIFIED)
    ensures var state := if r.outcome == UPLOADED then Uploaded else RemoteExistsUnverified;
      Fold(g, r) == g.(entries := g.entries[r.name := Entry(r.manifestHash, r.tarSha, r.size, r.at, state)])
  {
  }

  /** A partition that was sent and has not changed is passed in silence by the next run; with another manifest it is a failure. */
  lemma {:induction false} MetAgain(a: Authority, run: Run, site: Site, f: Found, config: Config, now: nat, later: Found,
                                    reply: Reply)
    requires !run.aborted && Read(site.ledger).entries.Keys == run.cache.Keys
    requires var g := Reading(run.cache, run.inconsistent);
      IsSent(a, run.config, run.now, g, f, SpentBy(run)) && ManifestHash(a, f).Some?
    requires NameOf(later) == NameOf(f) && Closed(later) && ManifestHash(a, later).Some?
    ensures var s := Visit(a, run, site, f, Answered).1;
      var next := Started(config, now, s.ledger);
      var (r, t) := Visit(a, next, s, later, reply);
      && !r.aborted && t == s
      && r.outcomes == [if ManifestHash(a, later) == ManifestHash(a, f) then AlreadyRecorded else OtherManifest]
  {
    PutReads(a, run, site, f);
    hide Holds, FilesIn, NameOf, CanonicalPathError, Pack, Count, ManifestOf, AppendText, Read, IsSent, WindowSum;
    var s := Visit(a, run, site, f, Answered).1;
    hide Visit;
    var next := Started(config, now, s.ledger);
    KnownIsSettled(a, next, s, later, reply);
  }

  lemma KnownIsSettled(a: Authority, run: Run, site: Site, f: Found, reply: Reply)
    requires run.outcomes == [] && Closed(f) && ManifestHash(a, f).Some? && NameOf(f) in run.cache && !run.aborted
    ensures var (r, s) := Visit(a, run, site, f, reply);
      && !r.aborted && s == site
      && r.outcomes == [if ManifestHash(a, f) == Some(run.cache[NameOf(f)].manifestHash) then AlreadyRecorded else OtherManifest]
  {
    hide Holds, FilesIn, NameOf, ManifestOf;
  }

  // ---- States --------------------------------------------------------------

  /** How many names the entries hold in a state. */
  function NamesIn(m: map<string, Entry>, s: State): set<string> {
    set n | n in m && m[n].state == s
  }

  lemma NamesInAdd(m: map<string, Entry>, n: string, e: Entry, s: State)
    requires n !in m
    ensures |NamesIn(m[n := e], s)| == |NamesIn(m, s)| + if e.state == s then 1 else 0
  {
    assert NamesIn(m[n := e], s) == NamesIn(m, s) + if e.state == s then {n} else {};
  }

  /** A turn moves the count of each state by what it put on record. */
  lemma VisitStates(a: Authority, run: Run, site: Site, f: Found, reply: Reply, s: State)
    requires !run.aborted && !Visit(a, run, site, f, reply).0.aborted
    ensures var r := Visit(a, run, site, f, reply).0;
      && |r.outcomes| == |run.outcomes| + 1
      && var o := r.outcomes[|run.outcomes|];
         |NamesIn(r.cache, s)| == |NamesIn(run.cache, s)|
           + if (s.Uploaded? && o.Sent?) || (s.RemoteExistsUnverified? && o.Conflict?) then 1 else 0
  {
    hide Decide, AppendText, PutNew, NamesIn;
    var plan := Decide(a, run, f);
    SettledIsNoSend(a, run, f);
    if plan.Send? && reply.Answered? {
      SendMeans(a, run, f, plan.body, plan.manifestHash);
      var created := NameOf(f) !in site.objects;
      NamesInAdd(run.cache, NameOf(f), EntryOf(SentRecord(a, run, f, plan.body, plan.manifestHash, created)), s);
    }
  }

  lemma {:induction false} RunStates(a: Authority, start: Run, site: Site, fs: seq<Found>, replies: nat -> Reply)
    requires start.outcomes == [] && !start.aborted && !VisitAll(a, start, site, fs, replies).0.aborted
    ensures var r := VisitAll(a, start, site, fs, replies).0;
      && |NamesIn(r.cache, Uploaded)| == |NamesIn(start.cache, Uploaded)| + Count(r.outcomes, Sent)
      && |NamesIn(r.cache, RemoteExistsUnverified)| ==
           |NamesIn(start.cache, RemoteExistsUnverified)| + Count(r.outcomes, Conflict)
      && |NamesIn(r.cache, RestoreVerified)| == |NamesIn(start.cache, RestoreVerified)|
  {
    hide Visit, NamesIn, Count;
    if fs == [] {
      NothingCounted();
    } else {
      var n := |fs| - 1;
      var (q, t) := VisitAll(a, start, site, fs[..n], replies);
      RunStates(a, start, site, fs[..n], replies);
      RunLength(a, start, site, fs[..n], replies);
      VisitKeeps(a, q, t, fs[n], replies(|q.outcomes|));
      VisitStates(a, q, t, fs[n], replies(|q.outcomes|), Uploaded);
      VisitStates(a, q, t, fs[n], replies(|q.outcomes|), RemoteExistsUnverified);
      VisitStates(a, q, t, fs[n], replies(|q.outcomes|), RestoreVerified);
      var r := Visit(a, q, t, fs[n], replies(|q.outcomes|)).0;
      assert r.outcomes == q.outcomes + [r.outcomes[|q.outcomes|]];
      CountNext(q.outcomes, r.outcomes[|q.outcomes|], Sent);
      CountNext(q.outcomes, r.outcomes[|q.outcomes|], Conflict);
    }
  }

  lemma NothingCounted()
    ensures forall o :: Count([], o) == 0
  {
  }

  /** The running total is what the window weighs. */
  lemma {:induction false} RunSum(a: Authority, start: Run, site: Site, fs: seq<Found>, replies: nat -> Reply)
    requires start.config.windowDays >= 1
    requires start.windowBytes == WindowSum(start.cache, WindowStart(start.config.windowDays, start.now))
    ensures var r := VisitAll(a, start, site, fs, replies).0;
      && r.config == start.config && r.now == start.now
      && r.windowBytes == WindowSum(r.cache, WindowStart(r.config.windowDays, r.now))
  {
    hide Decide, AppendText, PutNew, WindowSum, WindowStart;
    if fs != [] {
      var f := fs[|fs| - 1];
      RunSum(a, start, site, fs[..|fs| - 1], replies);
      var (r, s) := VisitAll(a, start, site, fs[..|fs| - 1], replies);
      var plan := Decide(a, r, f);
      if plan.Send? {
        SendMeans(a, r, f, plan.body, plan.manifestHash);
        var e := SentRecord(a, r, f, plan.body, plan.manifestHash, NameOf(f) !in s.objects);
        MadeNowWeighs(r);
        WindowSumAdd(r.cache, WindowStart(r.config.windowDays, r.now), e.name, EntryOf(e));
      }
    }
  }

  /** A window weighs the sizes of the entries first put on record after its start, and of no others. */
  lemma {:induction false} WindowIsSum(m: map<string, Entry>, start: int, n: string, e: Entry)
    ensures WindowSum(map[], start) == 0
    ensures n !in m ==> WindowSum(m[n := e], start) == WindowSum(m, start) + if e.firstAt * 1_000_000_000 > start then e.size else 0
  {
    if n !in m {
      WindowSumAdd(m, start, n, e);
    }
  }

  /**
   * The state counts of a report are those of the file as the run leaves it, and that is what
   * it was at the start and, for each of the run's PUTs that was answered, one more UPLOADED
   * or one more REMOTE_EXISTS_UNVERIFIED: exactly the uploads and the conflicts the report
   * lists. The names it calls unverified are those the file does, within the window; the
   * window's bytes are those of the file.
   */
  lemma {:induction false} ReportStates(a: Authority, config: Config, now: nat, site: Site, roots: seq<Root>,
                                        replies: nat -> Reply)
    requires GoodConfig(config)
    requires !VisitAll(a, Started(config, now, site.ledger), site, FoundIn(roots), replies).0.aborted
    ensures var fs := FoundIn(roots);
      var (run, after) := VisitAll(a, Started(config, now, site.ledger), site, fs, replies);
      && |run.outcomes| == |fs|
      && var report, was, left := ReportOf(fs, run), Read(site.ledger).entries, Read(after.ledger).entries;
      && report.states.Keys == {Uploaded, RestoreVerified, RemoteExistsUnverified}
      && (forall s | s in report.states :: report.states[s] == |NamesIn(left, s)|)
      && report.states[Uploaded] == |NamesIn(was, Uploaded)| + |report.tally.uploaded|
      && report.states[RemoteExistsUnverified] == |NamesIn(was, RemoteExistsUnverified)| + |report.tally.conflicts|
      && report.states[RestoreVerified] == |NamesIn(was, RestoreVerified)|
      && (forall n :: n in report.unverifiedInWindow <==>
            n in left && left[n].state.RemoteExistsUnverified?
            && left[n].firstAt * 1_000_000_000 > now - config.windowDays * 86_400 * 1_000_000_000)
      && report.windowBytes == WindowSum(left, now - config.windowDays * 86_400 * 1_000_000_000)
      && report.budgetBytes == config.budgetBytes
      && report.disagreeing == Read(site.ledger).inconsistent == Read(after.ledger).inconsistent
  {
    hide VisitAll, Read, TallyOf, Count, FoundIn, NamesIn, WindowSum;
    var start, fs := Started(config, now, site.ledger), FoundIn(roots);
    var (run, after) := VisitAll(a, start, site, fs, replies);
    StartedAgrees(config, now, site);
    RunLength(a, start, site, fs, replies);
    RunAgrees(a, start, site, fs, replies);
    RunSum(a, start, site, fs, replies);
    RunStates(a, start, site, fs, replies);
    TallyCountsAll(fs, run.outcomes);
    StatesCounted(run.cache);
  }

  lemma StatesCounted(m: map<string, Entry>)
    ensures forall s :: InState(m, s) == |NamesIn(m, s)|
  {
    forall s ensures InState(m, s) == |NamesIn(m, s)| {
      assert NamesIn(m, s) == set n | n in m && m[n].state == s;
    }
  }
}
