/**
 * What every backup run keeps, however its partitions, replies and times come out:
 * the cache is the file, the window stays within the budget, nothing on record is sent
 * again, and every partition found is accounted for exactly once.
 */
module BackupFacts {
  import opened Wrappers
  import opened Framing
  import opened Ledger
  import opened PartitionTar
  import opened CaptureArchive
  import opened Backup
  import opened BackupRun
  import ObjectName

  // ---- What is sent can be restored ----------------------------------------

  /** What a run sends: a body packed at its canonical place, under a name not on record. */
  lemma {:induction false} SendMeans(a: Authority, run: Run, f: Found, body: Bytes, manifestHash: string)
    requires Decide(a, run, f) == Send(body, manifestHash)
    ensures NameOf(f) !in run.cache && NameOf(f) !in run.inconsistent
    ensures Pack(f.listing, f.relative) == Ok(body)
    ensures CanonicalPathError(a, FilesIn(f.listing), f.rootLabel, f.relative).None?
    ensures IsComplete(a, FilesIn(f.listing)) && !Holds(f.listing, RAW_RECORDS)
    ensures run.windowBytes + |body| <= run.config.budgetBytes
    ensures SentCount(run.outcomes) < run.config.maxUploads && Count(run.outcomes, OverBudget) == 0
  {
    hide FilesIn, Pack, CanonicalPathError, Count, Holds;
  }

  /**
   * Every object a run sends has a name the restore accepts, and its bytes extract to
   * exactly the partition's five files, whatever the bucket appends after them.
   */
  lemma {:induction false} SentRestores(a: Authority, run: Run, f: Found, body: Bytes, manifestHash: string,
                                        trailing: Bytes)
    requires WellFormed(a) && DistinctNames(f.listing)
    requires Decide(a, run, f) == Send(body, manifestHash)
    ensures ObjectName.Parse(NameOf(f)) == Ok((f.rootLabel, f.relative))
    ensures Extract(body + trailing, f.relative) == Ok(KeptFiles(f.listing))
    ensures KeptFiles(f.listing).Keys == PARTITION_FILES
  {
    hide Decide, WellFormed, Extract, Pack, CanonicalPathError;
    SendMeans(a, run, f, body, manifestHash);
    CanonicalNamesParse(a, FilesIn(f.listing), f.rootLabel, f.relative);
    CompletePacksWhole(a, f.listing, f.relative);
    ExtractPacked(f.listing, f.relative, trailing);
  }

  // ---- The cache is the file -----------------------------------------------

  ghost predicate CacheAgrees(run: Run, site: Site) {
    Read(site.ledger) == Reading(run.cache, run.inconsistent)
  }

  /** Folding the line of a name not on record enters exactly its entry. */
  lemma FoldNew(g: Reading, r: Record)
    requires r.name !in g.entries && r.outcome != RESTORE_VERIFIED
    ensures Fold(g, r) == g.(entries := g.entries[r.name := EntryOf(r)])
  {
  }

  lemma VisitAgrees(a: Authority, run: Run, site: Site, f: Found, reply: Reply)
    requires CacheAgrees(run, site)
    ensures CacheAgrees(Visit(a, run, site, f, reply).0, Visit(a, run, site, f, reply).1)
  {
    hide Decide, Read, AppendText, Fold, PutNew;
    var plan := Decide(a, run, f);
    if plan.Send? && reply.Answered? {
      SendMeans(a, run, f, plan.body, plan.manifestHash);
      var r := SentRecord(a, run, f, plan.body, plan.manifestHash, NameOf(f) !in site.objects);
      AppendRead(site.ledger, r);
      FoldNew(Reading(run.cache, run.inconsistent), r);
    }
  }

  /** After any number of turns, what the run holds in memory is what the file reads as. */
  lemma {:induction false} RunAgrees(a: Authority, run: Run, site: Site, fs: seq<Found>, replies: nat -> Reply)
    requires CacheAgrees(run, site)
    ensures CacheAgrees(VisitAll(a, run, site, fs, replies).0, VisitAll(a, run, site, fs, replies).1)
  {
    hide Visit, CacheAgrees;
    if fs != [] {
      RunAgrees(a, run, site, fs[..|fs| - 1], replies);
      var (r, s) := VisitAll(a, run, site, fs[..|fs| - 1], replies);
      VisitAgrees(a, r, s, fs[|fs| - 1], replies(|r.outcomes|));
    }
  }

  lemma StartedAgrees(config: Config, now: nat, site: Site)
    ensures CacheAgrees(Started(config, now, site.ledger), site)
  {
  }

  // ---- The window ----------------------------------------------------------

  /** The running total is the window's sum, and every size is a number of bytes. */
  ghost predicate WindowAgrees(run: Run) {
    && run.windowBytes == WindowSum(run.cache, WindowStart(run.config.windowDays, run.now))
    && SizesAreNatural(run.cache)
  }

  ghost predicate WithinBudget(run: Run) {
    run.windowBytes <= run.config.budgetBytes
  }

  /** The time of an entry made now lies inside any window of at least a day. */
  lemma MadeNowWeighs(run: Run)
    requires 1 <= run.config.windowDays
    ensures run.now / NANOS * NANOS > WindowStart(run.config.windowDays, run.now)
  {
    assert run.now / NANOS * NANOS + run.now % NANOS == run.now;
    assert run.config.windowDays * DAY_SECONDS * NANOS >= DAY_SECONDS * NANOS;
  }

  lemma VisitWindow(a: Authority, run: Run, site: Site, f: Found, reply: Reply)
    requires WindowAgrees(run) && 1 <= run.config.windowDays
    ensures WindowAgrees(Visit(a, run, site, f, reply).0)
    ensures WithinBudget(run) ==> WithinBudget(Visit(a, run, site, f, reply).0)
    ensures run.windowBytes <= Visit(a, run, site, f, reply).0.windowBytes
  {
    hide Decide, AppendText, PutNew, WindowStart;
    var plan := Decide(a, run, f);
    if plan.Send? && reply.Answered? {
      SendMeans(a, run, f, plan.body, plan.manifestHash);
      var r := SentRecord(a, run, f, plan.body, plan.manifestHash, NameOf(f) !in site.objects);
      MadeNowWeighs(run);
      WindowSumAdd(run.cache, WindowStart(run.config.windowDays, run.now), r.name, EntryOf(r));
    }
  }

  /** A run never takes the bytes on record for its window past the budget. */
  lemma {:induction false} RunWindow(a: Authority, run: Run, site: Site, fs: seq<Found>, replies: nat -> Reply)
    requires WindowAgrees(run) && 1 <= run.config.windowDays && !run.aborted
    ensures var r := VisitAll(a, run, site, fs, replies).0;
      && r.config == run.config && r.now == run.now && WindowAgrees(r)
      && (WithinBudget(run) ==> WithinBudget(r))
  {
    hide Visit, WindowAgrees;
    if fs != [] {
      RunWindow(a, run, site, fs[..|fs| - 1], replies);
      var (r, s) := VisitAll(a, run, site, fs[..|fs| - 1], replies);
      if !r.aborted {
        VisitWindow(a, r, s, fs[|fs| - 1], replies(|r.outcomes|));
        VisitKeeps(a, r, s, fs[|fs| - 1], replies(|r.outcomes|));
      }
    }
  }

  // ---- Order and limits ----------------------------------------------------

  predicate IsSend(o: Outcome) {
    o.Sent? || o.Conflict?
  }

  /** At most `max_uploads` are put on record, and none after the first one withheld for the budget. */
  ghost predicate Orderly(run: Run) {
    && SentCount(run.outcomes) <= (if run.config.maxUploads < 0 then 0 else run.config.maxUploads)
    && forall i, j | 0 <= i < j < |run.outcomes| && run.outcomes[i].OverBudget? :: !IsSend(run.outcomes[j])
  }

  lemma {:induction false} CountPositive(os: seq<Outcome>, i: nat, o: Outcome)
    requires i < |os| && os[i] == o
    ensures Count(os, o) > 0
  {
    if i < |os| - 1 {
      CountPositive(os[..|os| - 1], i, o);
    }
  }

  lemma CountNext(os: seq<Outcome>, o: Outcome, p: Outcome)
    ensures Count(os + [o], p) == Count(os, p) + if o == p then 1 else 0
  {
    assert (os + [o])[..|os|] == os;
  }

  lemma OrderlyNext(run: Run, next: Run, o: Outcome)
    requires Orderly(run) && next.config == run.config && next.outcomes == run.outcomes + [o]
    requires IsSend(o) ==> SentCount(run.outcomes) < run.config.maxUploads && Count(run.outcomes, OverBudget) == 0
    ensures Orderly(next)
  {
    CountNext(run.outcomes, o, Sent);
    CountNext(run.outcomes, o, Conflict);
    hide Count;
    forall i, j | 0 <= i < j < |next.outcomes| && next.outcomes[i].OverBudget? ensures !IsSend(next.outcomes[j]) {
      if j == |run.outcomes| {
        CountPositive(run.outcomes, i, OverBudget);
      }
    }
  }

  lemma VisitOrderly(a: Authority, run: Run, site: Site, f: Found, reply: Reply)
    requires Orderly(run)
    ensures Orderly(Visit(a, run, site, f, reply).0)
  {
    hide Orderly, AppendText, PutNew, Decide, Count;
    var plan := Decide(a, run, f);
    var next := Visit(a, run, site, f, reply).0;
    match plan
    case Send(body, manifestHash) =>
      SendMeans(a, run, f, body, manifestHash);
      if reply.BrokenOff? {
        OrderlySame(run, next);
      } else {
        OrderlyNext(run, next, next.outcomes[|run.outcomes|]);
      }
    case Settle(o) =>
      SettledIsNoSend(a, run, f);
      OrderlyNext(run, next, o);
    case Abort =>
      OrderlySame(run, next);
  }

  lemma OrderlySame(run: Run, next: Run)
    requires Orderly(run) && next.config == run.config && next.outcomes == run.outcomes
    ensures Orderly(next)
  {
  }

  lemma SettledIsNoSend(a: Authority, run: Run, f: Found)
    ensures Decide(a, run, f).Settle? ==> !IsSend(Decide(a, run, f).outcome)
  {
    hide FilesIn, Pack, CanonicalPathError, Count, Holds;
  }

  lemma {:induction false} RunOrderly(a: Authority, run: Run, site: Site, fs: seq<Found>, replies: nat -> Reply)
    requires Orderly(run)
    ensures Orderly(VisitAll(a, run, site, fs, replies).0)
  {
    hide Visit, Orderly;
    if fs != [] {
      RunOrderly(a, run, site, fs[..|fs| - 1], replies);
      var (r, s) := VisitAll(a, run, site, fs[..|fs| - 1], replies);
      VisitOrderly(a, r, s, fs[|fs| - 1], replies(|r.outcomes|));
    }
  }

  // ---- Accounting ----------------------------------------------------------

  /** Partitions already on record, or whose lines disagree: met, and counted nowhere in the report. */
  function QuietCount(os: seq<Outcome>): nat {
    Count(os, AlreadyRecorded) + Count(os, Disagreeing)
  }

  function TallySize(t: Tally): nat {
    |t.uploaded| + |t.conflicts| + |t.pending| + |t.stale| + |t.failures|
    + t.skipped + t.deferred + t.beyondHorizon + t.overBudget
  }

  /** Every partition met is in exactly one list or counter of the report, or was quietly known. */
  lemma {:induction false} Accounting(fs: seq<Found>, os: seq<Outcome>)
    requires |os| <= |fs|
    ensures TallySize(TallyOf(fs, os)) + QuietCount(os) == |os|
  {
    if os != [] {
      Accounting(fs, os[..|os| - 1]);
    }
  }

  // ---- Nothing on record is sent again -------------------------------------

  /** The cache only gains names, and keeps what it says of those it had. */
  lemma VisitCacheGrows(a: Authority, run: Run, site: Site, f: Found, reply: Reply)
    ensures var r := Visit(a, run, site, f, reply).0;
      forall n | n in run.cache :: n in r.cache && r.cache[n] == run.cache[n]
  {
    hide Decide, AppendText, PutNew;
    var plan := Decide(a, run, f);
    if plan.Send? {
      SendMeans(a, run, f, plan.body, plan.manifestHash);
    }
  }

  lemma {:induction false} RunCacheGrows(a: Authority, run: Run, site: Site, fs: seq<Found>, replies: nat -> Reply)
    ensures var r := VisitAll(a, run, site, fs, replies).0;
      forall n | n in run.cache :: n in r.cache && r.cache[n] == run.cache[n]
  {
    hide Visit;
    if fs != [] {
      RunCacheGrows(a, run, site, fs[..|fs| - 1], replies);
      var (r, s) := VisitAll(a, run, site, fs[..|fs| - 1], replies);
      VisitCacheGrows(a, r, s, fs[|fs| - 1], replies(|r.outcomes|));
    }
  }

  lemma VisitLeavesObject(a: Authority, run: Run, site: Site, f: Found, reply: Reply, n: string)
    requires n in run.cache || n in site.objects
    ensures var s := Visit(a, run, site, f, reply).1;
      (n in s.objects <==> n in site.objects) && (n in site.objects ==> s.objects[n] == site.objects[n])
  {
    hide Decide, AppendText;
    var plan := Decide(a, run, f);
    if plan.Send? {
      SendMeans(a, run, f, plan.body, plan.manifestHash);
    }
  }

  /** Whatever a run does to the bucket, an object whose name the ledger holds is left as it was. */
  lemma {:induction false} RecordedNeverPut(a: Authority, run: Run, site: Site, fs: seq<Found>,
        replies: nat -> Reply, n: string)
    requires n in run.cache
    ensures var s := VisitAll(a, run, site, fs, replies).1;
      (n in s.objects <==> n in site.objects) && (n in site.objects ==> s.objects[n] == site.objects[n])
  {
    hide Visit;
    if fs != [] {
      var front, f := fs[..|fs| - 1], fs[|fs| - 1];
      RecordedNeverPut(a, run, site, front, replies, n);
      RunCacheGrows(a, run, site, front, replies);
      var (r, s) := VisitAll(a, run, site, front, replies);
      VisitLeavesObject(a, r, s, f, replies(|r.outcomes|), n);
    }
  }

  /** No run ever changes an object that already exists. */
  lemma {:induction false} RunNeverOverwrites(a: Authority, run: Run, site: Site, fs: seq<Found>,
        replies: nat -> Reply, n: string)
    requires n in site.objects
    ensures var s := VisitAll(a, run, site, fs, replies).1; n in s.objects && s.objects[n] == site.objects[n]
  {
    hide Visit;
    if fs != [] {
      RunNeverOverwrites(a, run, site, fs[..|fs| - 1], replies, n);
      var (r, s) := VisitAll(a, run, site, fs[..|fs| - 1], replies);
      VisitLeavesObject(a, r, s, fs[|fs| - 1], replies(|r.outcomes|), n);
    }
  }

  // ---- What an OK report says ----------------------------------------------

  predicate IsAlarm(o: Outcome) {
    o.OtherManifest? || o.Failed? || o.Stale? || o.OverBudget?
  }

  predicate IsQuiet(t: Tally) {
    t.failures == [] && t.stale == [] && t.overBudget == 0
  }

  lemma AddQuiet(fs: seq<Found>, os: seq<Outcome>)
    requires os != [] && |os| <= |fs|
    ensures IsQuiet(TallyOf(fs, os)) <==> IsQuiet(TallyOf(fs, os[..|os| - 1])) && !IsAlarm(os[|os| - 1])
  {
    hide Add, NameOf, IsQuiet, IsAlarm;
    AddOne(TallyOf(fs, os[..|os| - 1]), NameOf(fs[|os| - 1]), os[|os| - 1]);
  }

  lemma AddOne(t: Tally, name: string, o: Outcome)
    ensures IsQuiet(Add(t, name, o)) <==> IsQuiet(t) && !IsAlarm(o)
  {
  }

  lemma {:induction false} TallyQuiet(fs: seq<Found>, os: seq<Outcome>)
    requires |os| <= |fs|
    ensures IsQuiet(TallyOf(fs, os)) <==> forall i | 0 <= i < |os| :: !IsAlarm(os[i])
  {
    hide IsAlarm;
    if os != [] {
      hide TallyOf;
      TallyQuiet(fs, os[..|os| - 1]);
      AddQuiet(fs, os);
      assert forall i | 0 <= i < |os| - 1 :: os[..|os| - 1][i] == os[i];
    }
  }

  /** A run reports OK exactly when no partition raised an alarm and the ledger itself raises none. */
  lemma {:induction false} OkMeans(fs: seq<Found>, run: Run)
    requires |run.outcomes| == |fs|
    ensures ReportOf(fs, run).Ok() <==>
            && (forall i | 0 <= i < |fs| :: !IsAlarm(run.outcomes[i]))
            && run.inconsistent == {}
            && (forall n | n in run.cache && run.cache[n].firstAt * NANOS > WindowStart(run.config.windowDays, run.now) ::
                  !run.cache[n].state.RemoteExistsUnverified?)
  {
    TallyQuiet(fs, run.outcomes);
    var u := UnverifiedSince(run.cache, WindowStart(run.config.windowDays, run.now));
    if u == {} {
      forall n | n in run.cache && run.cache[n].firstAt * NANOS > WindowStart(run.config.windowDays, run.now)
        ensures !run.cache[n].state.RemoteExistsUnverified?
      {
        assert n !in u;
      }
    }
  }
}
