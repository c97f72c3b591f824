/**
 * Draining: with room in the budget and no failed upload, the partitions that can be sent are
 * put on record at the rate of `max_uploads` a run, so ceil(n / max_uploads) runs record all
 * n of them, whatever else the runs find in between.
 */
module BackupDrain {
  import opened Wrappers
  import opened Ledger
  import opened PartitionTar
  import opened CaptureArchive
  import opened Backup
  import opened BackupRun
  import opened BackupFacts

  /** Nothing but the run's limits keeps this partition from being sent. */
  ghost predicate Eligible(a: Authority, config: Config, now: nat, f: Found) {
    && !Holds(f.listing, OPEN_MARKER) && Holds(f.listing, MANIFEST)
    && ManifestOf(a, FilesIn(f.listing)).Some?
    && !Holds(f.listing, RAW_RECORDS) && Holds(f.listing, COMPACTION)
    && now - f.finalizedAt <= config.horizonDays * DAY_SECONDS * NANOS
    && IsComplete(a, FilesIn(f.listing))
    && CanonicalPathError(a, FilesIn(f.listing), f.rootLabel, f.relative).None?
    && Pack(f.listing, f.relative).Ok?
  }

  /**
   * The run passes this partition by, wherever its counters stand: it is open, has no
   * manifest, is on record or disagreed about, not compacted, old, not COMPLETE, or refused
   * for its place or for a file that does not belong.
   */
  ghost predicate PassedBy(a: Authority, config: Config, now: nat, g: Reading, f: Found) {
    || Holds(f.listing, OPEN_MARKER) || !Holds(f.listing, MANIFEST)
    || (ManifestOf(a, FilesIn(f.listing)).Some? && (
          || NameOf(f) in g.entries || NameOf(f) in g.inconsistent
          || Holds(f.listing, RAW_RECORDS) || !Holds(f.listing, COMPACTION)
          || now - f.finalizedAt > config.horizonDays * DAY_SECONDS * NANOS
          || a.complete(FilesIn(f.listing)) == Some(false)
          || (IsComplete(a, FilesIn(f.listing)) && (
                || CanonicalPathError(a, FilesIn(f.listing), f.rootLabel, f.relative).Some?
                || (Pack(f.listing, f.relative).Err? && Pack(f.listing, f.relative).error.UnexpectedFile?)))))
  }

  ghost predicate WantedOrPassed(a: Authority, config: Config, now: nat, g: Reading, f: Found, wanted: set<string>) {
    if NameOf(f) in wanted then Eligible(a, config, now, f) && NameOf(f) !in g.inconsistent
    else PassedBy(a, config, now, g, f)
  }

  /** Of all a run finds, these can be sent; it passes by every other, wherever that stands. */
  ghost predicate Wanted(a: Authority, config: Config, now: nat, g: Reading, fs: seq<Found>, wanted: set<string>) {
    forall i | 0 <= i < |fs| :: WantedOrPassed(a, config, now, g, fs[i], wanted)
  }

  /** No wanted partition is found twice. */
  ghost predicate DistinctObjects(fs: seq<Found>, wanted: set<string>) {
    forall i, j | 0 <= i < j < |fs| && NameOf(fs[i]) in wanted :: NameOf(fs[i]) != NameOf(fs[j])
  }

  function PackedSize(f: Found): nat {
    match Pack(f.listing, f.relative)
    case Ok(body) => |body|
    case Err(_) => 0
  }

  predicate IsMissing(f: Found, wanted: set<string>, m: map<string, Entry>) {
    NameOf(f) in wanted && NameOf(f) !in m
  }

  /** How many of the wanted partitions are not on record. */
  function Missing(fs: seq<Found>, wanted: set<string>, m: map<string, Entry>): nat {
    if fs == [] then 0
    else Missing(fs[..|fs| - 1], wanted, m) + if IsMissing(fs[|fs| - 1], wanted, m) then 1 else 0
  }

  function MissingBytes(fs: seq<Found>, wanted: set<string>, m: map<string, Entry>): nat {
    if fs == [] then 0
    else MissingBytes(fs[..|fs| - 1], wanted, m) + if IsMissing(fs[|fs| - 1], wanted, m) then PackedSize(fs[|fs| - 1]) else 0
  }

  /** The bytes of the first `q` of them that are not on record: what a run sends. */
  function NextBytes(fs: seq<Found>, wanted: set<string>, m: map<string, Entry>, q: nat): nat
    decreases |fs|
  {
    if fs == [] || q == 0 then 0
    else if IsMissing(fs[0], wanted, m) then PackedSize(fs[0]) + NextBytes(fs[1..], wanted, m, q - 1)
    else NextBytes(fs[1..], wanted, m, q)
  }

  function Min(x: int, y: int): int {
    if x <= y then x else y
  }

  function Rate(config: Config): nat {
    if config.maxUploads < 0 then 0 else config.maxUploads
  }

  /** A run at this time has room for what it sends: its own window and that fit the budget, or it sends nothing. */
  ghost predicate HasRoom(config: Config, now: nat, m: map<string, Entry>, fs: seq<Found>, wanted: set<string>) {
    || Missing(fs, wanted, m) == 0 || Rate(config) == 0
    || WindowSum(m, WindowStart(config.windowDays, now)) + NextBytes(fs, wanted, m, Rate(config)) <= config.budgetBytes
  }

  lemma DecideEligible(a: Authority, run: Run, f: Found)
    requires Eligible(a, run.config, run.now, f)
    ensures NameOf(f) in run.cache ==>
              Decide(a, run, f) == Settle(OtherManifest) || Decide(a, run, f) == Settle(AlreadyRecorded)
    ensures NameOf(f) !in run.cache && NameOf(f) !in run.inconsistent && Count(run.outcomes, OverBudget) == 0 ==>
              if SentCount(run.outcomes) >= run.config.maxUploads then Decide(a, run, f) == Settle(Deferred)
              else if run.windowBytes + PackedSize(f) > run.config.budgetBytes then Decide(a, run, f) == Settle(OverBudget)
              else Decide(a, run, f).Send? && |Decide(a, run, f).body| == PackedSize(f)
  {
    hide FilesIn, Pack, CanonicalPathError, Count, Holds;
  }

  lemma DecidePassedBy(a: Authority, run: Run, f: Found)
    requires PassedBy(a, run.config, run.now, Reading(run.cache, run.inconsistent), f) && Count(run.outcomes, OverBudget) == 0
    ensures Decide(a, run, f).Settle? && !IsSend(Decide(a, run, f).outcome) && !Decide(a, run, f).outcome.OverBudget?
  {
    hide FilesIn, Pack, CanonicalPathError, Count, Holds;
  }

  /** What is passed by is passed by again when more is on record. */
  lemma PassedByStays(a: Authority, config: Config, now: nat, g: Reading, after: Reading, f: Found)
    requires PassedBy(a, config, now, g, f) && g.entries.Keys <= after.entries.Keys && g.inconsistent == after.inconsistent
    ensures PassedBy(a, config, now, after, f)
  {
    hide Holds, FilesIn, Pack, CanonicalPathError, NameOf;
    assert NameOf(f) in g.entries ==> NameOf(f) in g.entries.Keys;
  }

  lemma WantedStays(a: Authority, config: Config, now: nat, g: Reading, after: Reading, fs: seq<Found>, wanted: set<string>)
    requires Wanted(a, config, now, g, fs, wanted)
    requires g.entries.Keys <= after.entries.Keys && g.inconsistent == after.inconsistent
    ensures Wanted(a, config, now, after, fs, wanted)
  {
    hide PassedBy, Eligible, NameOf;
    forall i | 0 <= i < |fs| ensures WantedOrPassed(a, config, now, after, fs[i], wanted) {
      assert WantedOrPassed(a, config, now, g, fs[i], wanted);
      if NameOf(fs[i]) !in wanted {
        PassedByStays(a, config, now, g, after, fs[i]);
      }
    }
  }

  lemma {:induction false} MissingAdd(fs: seq<Found>, wanted: set<string>, m: map<string, Entry>, k: nat, e: Entry)
    requires DistinctObjects(fs, wanted) && k < |fs| && IsMissing(fs[k], wanted, m)
    ensures Missing(fs, wanted, m[NameOf(fs[k]) := e]) == Missing(fs, wanted, m) - 1
    ensures MissingBytes(fs, wanted, m[NameOf(fs[k]) := e]) == MissingBytes(fs, wanted, m) - PackedSize(fs[k])
    decreases |fs|
  {
    hide PackedSize, NameOf;
    var n := NameOf(fs[k]);
    if k < |fs| - 1 {
      assert NameOf(fs[|fs| - 1]) != n;
      MissingAdd(fs[..|fs| - 1], wanted, m, k, e);
    } else {
      forall i | 0 <= i < |fs| - 1 && NameOf(fs[i]) in wanted ensures NameOf(fs[i]) != n {
        assert NameOf(fs[i]) != NameOf(fs[k]);
      }
      MissingElsewhere(fs[..|fs| - 1], wanted, m, n, e);
    }
  }

  lemma {:induction false} MissingElsewhere(fs: seq<Found>, wanted: set<string>, m: map<string, Entry>, n: string, e: Entry)
    requires forall i | 0 <= i < |fs| && NameOf(fs[i]) in wanted :: NameOf(fs[i]) != n
    ensures Missing(fs, wanted, m[n := e]) == Missing(fs, wanted, m)
    ensures MissingBytes(fs, wanted, m[n := e]) == MissingBytes(fs, wanted, m)
  {
    hide PackedSize, NameOf;
    if fs != [] {
      MissingElsewhere(fs[..|fs| - 1], wanted, m, n, e);
    }
  }

  /** Where a run that has withheld nothing stands after the first `k` partitions it found. */
  ghost predicate Progress(start: Run, r: Run, fs: seq<Found>, wanted: set<string>, k: nat)
    requires k <= |fs|
  {
    && !r.aborted && r.config == start.config && r.now == start.now && r.inconsistent == start.inconsistent
    && start.cache.Keys <= r.cache.Keys
    && SentCount(r.outcomes) == Min(Rate(start.config), Missing(fs[..k], wanted, start.cache))
    && Missing(fs, wanted, r.cache) == Missing(fs, wanted, start.cache) - SentCount(r.outcomes)
    && (forall j | k <= j < |fs| && NameOf(fs[j]) in wanted :: NameOf(fs[j]) in r.cache <==> NameOf(fs[j]) in start.cache)
    && (SentCount(r.outcomes) > 0 ==> r.windowBytes <= r.config.budgetBytes)
    && r.windowBytes + NextBytes(fs[k..], wanted, start.cache, Rate(start.config) - SentCount(r.outcomes)) ==
         start.windowBytes + NextBytes(fs, wanted, start.cache, Rate(start.config))
  }

  /** It has withheld nothing and stands so; or it has withheld something, and then it had no room. */
  ghost predicate Stands(start: Run, r: Run, fs: seq<Found>, wanted: set<string>, k: nat)
    requires k <= |fs|
  {
    if Count(r.outcomes, OverBudget) == 0 then Progress(start, r, fs, wanted, k)
    else
      && Missing(fs, wanted, start.cache) > 0 && Rate(start.config) > 0
      && start.windowBytes + NextBytes(fs, wanted, start.cache, Rate(start.config)) > start.config.budgetBytes
  }

  /** The next partition is passed by. */
  lemma StepPassedBy(a: Authority, start: Run, r: Run, s: Site, fs: seq<Found>, wanted: set<string>, k: nat)
    requires k < |fs| && Wanted(a, start.config, start.now, Reading(start.cache, start.inconsistent), fs, wanted)
    requires Count(r.outcomes, OverBudget) == 0 && Progress(start, r, fs, wanted, k) && NameOf(fs[k]) !in wanted
    ensures Stands(start, Visit(a, r, s, fs[k], Answered).0, fs, wanted, k + 1)
  {
    hide Decide, PackedSize, Eligible, NameOf, PassedBy, Missing, Count, NextBytes;
    assert WantedOrPassed(a, start.config, start.now, Reading(start.cache, start.inconsistent), fs[k], wanted);
    PassedByStays(a, start.config, start.now, Reading(start.cache, start.inconsistent), Reading(r.cache, r.inconsistent),
                  fs[k]);
    DecidePassedBy(a, r, fs[k]);
    StepSettled(start, r, Visit(a, r, s, fs[k], Answered).0, fs, wanted, k, Decide(a, r, fs[k]).outcome);
  }

  /** The next partition is wanted. */
  lemma StepWanted(a: Authority, start: Run, r: Run, s: Site, fs: seq<Found>, wanted: set<string>, k: nat)
    requires k < |fs| && DistinctObjects(fs, wanted) && NameOf(fs[k]) in wanted
    requires Wanted(a, start.config, start.now, Reading(start.cache, start.inconsistent), fs, wanted)
    requires Count(r.outcomes, OverBudget) == 0 && Progress(start, r, fs, wanted, k)
    ensures Stands(start, Visit(a, r, s, fs[k], Answered).0, fs, wanted, k + 1)
  {
    hide Decide, AppendText, PutNew, PackedSize, Eligible, NameOf, Missing, Count, NextBytes;
    assert WantedOrPassed(a, start.config, start.now, Reading(start.cache, start.inconsistent), fs[k], wanted);
    var f := fs[k];
    var next := Visit(a, r, s, f, Answered).0;
    DecideEligible(a, r, f);
    var plan := Decide(a, r, f);
    if plan.Send? {
      SendMeans(a, r, f, plan.body, plan.manifestHash);
      var created := NameOf(f) !in s.objects;
      StepSend(start, r, next, fs, wanted, k, EntryOf(SentRecord(a, r, f, plan.body, plan.manifestHash, created)),
               if created then Sent else Conflict);
    } else if plan.outcome.OverBudget? {
      StepWithheld(start, r, next, fs, wanted, k);
    } else {
      StepSettled(start, r, next, fs, wanted, k, plan.outcome);
    }
  }

  lemma NextBytesHere(fs: seq<Found>, wanted: set<string>, m: map<string, Entry>, q: nat, k: nat)
    requires k < |fs|
    ensures NextBytes(fs[k..], wanted, m, q) ==
            if q == 0 then 0
            else if IsMissing(fs[k], wanted, m) then PackedSize(fs[k]) + NextBytes(fs[k + 1..], wanted, m, q - 1)
            else NextBytes(fs[k + 1..], wanted, m, q)
  {
    hide IsMissing, PackedSize;
    assert fs[k..][1..] == fs[k + 1..];
  }

  lemma NoNextBytes(fs: seq<Found>, wanted: set<string>, m: map<string, Entry>)
    ensures NextBytes(fs, wanted, m, 0) == 0
  {
  }

  lemma MissingNext(fs: seq<Found>, wanted: set<string>, m: map<string, Entry>, k: nat)
    requires k < |fs|
    ensures Missing(fs[..k + 1], wanted, m) == Missing(fs[..k], wanted, m) + if IsMissing(fs[k], wanted, m) then 1 else 0
  {
    assert fs[..k + 1][..k] == fs[..k];
  }

  lemma StepSettled(start: Run, r: Run, next: Run, fs: seq<Found>, wanted: set<string>, k: nat, o: Outcome)
    requires k < |fs| && Count(r.outcomes, OverBudget) == 0 && Progress(start, r, fs, wanted, k)
    requires NameOf(fs[k]) !in wanted || NameOf(fs[k]) in r.cache || SentCount(r.outcomes) >= r.config.maxUploads
    requires !IsSend(o) && !o.OverBudget? && next == r.(outcomes := r.outcomes + [o])
    ensures Stands(start, next, fs, wanted, k + 1)
  {
    hide PackedSize, NameOf, Missing, NextBytes, Count;
    MissingNext(fs, wanted, start.cache, k);
    NextBytesHere(fs, wanted, start.cache, Rate(start.config) - SentCount(r.outcomes), k);
    NoNextBytes(fs[k + 1..], wanted, start.cache);
    CountNext(r.outcomes, o, OverBudget);
    CountNext(r.outcomes, o, Sent);
    CountNext(r.outcomes, o, Conflict);
  }

  lemma StepWithheld(start: Run, r: Run, next: Run, fs: seq<Found>, wanted: set<string>, k: nat)
    requires k < |fs| && Count(r.outcomes, OverBudget) == 0 && Progress(start, r, fs, wanted, k)
    requires IsMissing(fs[k], wanted, r.cache) && SentCount(r.outcomes) < r.config.maxUploads
    requires r.windowBytes + PackedSize(fs[k]) > r.config.budgetBytes
    requires next == r.(outcomes := r.outcomes + [OverBudget])
    ensures Stands(start, next, fs, wanted, k + 1)
  {
    hide PackedSize, NameOf, Missing, NextBytes, Count;
    NextBytesHere(fs, wanted, start.cache, Rate(start.config) - SentCount(r.outcomes), k);
    SomeMissing(fs, wanted, start.cache, k);
    CountNext(r.outcomes, OverBudget, OverBudget);
  }

  lemma {:induction false} SomeMissing(fs: seq<Found>, wanted: set<string>, m: map<string, Entry>, k: nat)
    requires k < |fs| && IsMissing(fs[k], wanted, m)
    ensures Missing(fs, wanted, m) > 0
  {
    hide IsMissing;
    if k < |fs| - 1 {
      SomeMissing(fs[..|fs| - 1], wanted, m, k);
    }
  }

  lemma StepSend(start: Run, r: Run, next: Run, fs: seq<Found>, wanted: set<string>, k: nat, e: Entry, o: Outcome)
    requires k < |fs| && DistinctObjects(fs, wanted) && Count(r.outcomes, OverBudget) == 0
    requires Progress(start, r, fs, wanted, k)
    requires IsMissing(fs[k], wanted, r.cache) && SentCount(r.outcomes) < r.config.maxUploads
    requires e.size == PackedSize(fs[k]) && (o == Sent || o == Conflict)
    requires next.cache == r.cache[NameOf(fs[k]) := e] && next.outcomes == r.outcomes + [o]
    requires next.windowBytes == r.windowBytes + e.size <= r.config.budgetBytes
    requires next.config == r.config && next.now == r.now && next.inconsistent == r.inconsistent && !next.aborted
    ensures Stands(start, next, fs, wanted, k + 1)
  {
    hide PackedSize, NameOf, Missing, NextBytes, Count;
    MissingAdd(fs, wanted, r.cache, k, e);
    MissingNext(fs, wanted, start.cache, k);
    NextBytesHere(fs, wanted, start.cache, Rate(start.config) - SentCount(r.outcomes), k);
    CountNext(r.outcomes, o, OverBudget);
    CountNext(r.outcomes, o, Sent);
    CountNext(r.outcomes, o, Conflict);
  }

  /** What is withheld stays withheld. */
  lemma WithheldStays(a: Authority, r: Run, s: Site, f: Found)
    requires Count(r.outcomes, OverBudget) > 0
    ensures Count(Visit(a, r, s, f, Answered).0.outcomes, OverBudget) > 0
  {
    hide Decide, AppendText, PutNew, Count;
    forall o: Outcome ensures Count(r.outcomes + [o], OverBudget) > 0 {
      CountNext(r.outcomes, o, OverBudget);
    }
  }

  /** One run. */
  lemma {:induction false} OneRun(a: Authority, start: Run, site: Site, fs: seq<Found>, wanted: set<string>,
                                  replies: nat -> Reply, k: nat)
    requires k <= |fs| && DistinctObjects(fs, wanted)
    requires Wanted(a, start.config, start.now, Reading(start.cache, start.inconsistent), fs, wanted)
    requires forall i :: replies(i) == Answered
    requires start.outcomes == [] && !start.aborted
    ensures Stands(start, VisitAll(a, start, site, fs[..k], replies).0, fs, wanted, k)
  {
    hide Visit, Wanted, DistinctObjects, Progress;
    if k == 0 {
      assert fs[..0] == [] && fs[0..] == fs;
      NothingDone(start, fs, wanted);
    } else {
      OneRun(a, start, site, fs, wanted, replies, k - 1);
      assert fs[..k][..k - 1] == fs[..k - 1];
      var (r, s) := VisitAll(a, start, site, fs[..k - 1], replies);
      if Count(r.outcomes, OverBudget) > 0 {
        WithheldStays(a, r, s, fs[k - 1]);
      } else {
        NotAborted(start, r, fs, wanted, k - 1);
        if NameOf(fs[k - 1]) in wanted {
          StepWanted(a, start, r, s, fs, wanted, k - 1);
        } else {
          StepPassedBy(a, start, r, s, fs, wanted, k - 1);
        }
      }
    }
  }

  lemma NothingDone(start: Run, fs: seq<Found>, wanted: set<string>)
    requires start.outcomes == [] && !start.aborted
    ensures Stands(start, start, fs, wanted, 0)
  {
    hide NextBytes;
    assert fs[0..] == fs && fs[..0] == [];
  }

  lemma NotAborted(start: Run, r: Run, fs: seq<Found>, wanted: set<string>, k: nat)
    requires k <= |fs| && Progress(start, r, fs, wanted, k)
    ensures !r.aborted
  {
  }

  /** A run withholds nothing for the budget exactly when it has room for what it sends. */
  lemma {:induction false} WithholdsExactly(a: Authority, config: Config, now: nat, site: Site, fs: seq<Found>,
        wanted: set<string>, replies: nat -> Reply)
    requires DistinctObjects(fs, wanted) && Wanted(a, config, now, Read(site.ledger), fs, wanted)
    requires forall i :: replies(i) == Answered
    ensures var r := VisitAll(a, Started(config, now, site.ledger), site, fs, replies).0;
      Count(r.outcomes, OverBudget) == 0 <==> HasRoom(config, now, Read(site.ledger).entries, fs, wanted)
  {
    hide Read, Wanted, VisitAll, DistinctObjects, Missing, NextBytes, WindowSum, Count;
    var start := Started(config, now, site.ledger);
    assert Reading(start.cache, start.inconsistent) == Read(site.ledger);
    OneRun(a, start, site, fs, wanted, replies, |fs|);
    assert fs[..|fs|] == fs && fs[|fs|..] == [];
    NoneLeft(wanted, start.cache, Rate(config) - Min(Rate(config), Missing(fs, wanted, start.cache)));
  }

  lemma NoneLeft(wanted: set<string>, m: map<string, Entry>, q: nat)
    ensures NextBytes([], wanted, m, q) == 0
  {
  }

  // ---- Many runs -----------------------------------------------------------

  /** What `m` runs can put on record. */
  function Capacity(m: nat, config: Config): nat {
    m * Rate(config)
  }

  /** One run after another, at the given times, over the same partitions. */
  ghost function Runs(a: Authority, config: Config, nows: seq<nat>, site: Site, fs: seq<Found>,
                      replies: nat -> Reply): Site
    decreases |nows|
  {
    if nows == [] then site
    else Runs(a, config, nows[1..], AfterRun(a, config, nows[0], site, fs, replies), fs, replies)
  }

  ghost function AfterRun(a: Authority, config: Config, now: nat, site: Site, fs: seq<Found>, replies: nat -> Reply): Site {
    VisitAll(a, Started(config, now, site.ledger), site, fs, replies).1
  }

  /** Each run, on the ledger as it finds it, has room for what it sends. */
  ghost predicate RoomThroughout(a: Authority, config: Config, nows: seq<nat>, site: Site, fs: seq<Found>,
                                 wanted: set<string>, replies: nat -> Reply)
    decreases |nows|
  {
    nows != [] ==>
      && HasRoom(config, nows[0], Read(site.ledger).entries, fs, wanted)
      && RoomThroughout(a, config, nows[1..], AfterRun(a, config, nows[0], site, fs, replies), fs, wanted, replies)
  }

  lemma OneRunDrains(a: Authority, config: Config, now: nat, site: Site, fs: seq<Found>, wanted: set<string>,
                     replies: nat -> Reply)
    requires DistinctObjects(fs, wanted) && Wanted(a, config, now, Read(site.ledger), fs, wanted)
    requires forall i :: replies(i) == Answered
    requires HasRoom(config, now, Read(site.ledger).entries, fs, wanted)
    ensures var before, after := Read(site.ledger), Read(AfterRun(a, config, now, site, fs, replies).ledger);
      && Missing(fs, wanted, after.entries) ==
           Missing(fs, wanted, before.entries) - Min(Rate(config), Missing(fs, wanted, before.entries))
      && after.inconsistent == before.inconsistent && before.entries.Keys <= after.entries.Keys
  {
    hide Read, Wanted, VisitAll, DistinctObjects, Missing, NextBytes, HasRoom, Count, WindowSum;
    var start := Started(config, now, site.ledger);
    assert Reading(start.cache, start.inconsistent) == Read(site.ledger);
    WithholdsExactly(a, config, now, site, fs, wanted, replies);
    OneRun(a, start, site, fs, wanted, replies, |fs|);
    assert fs[..|fs|] == fs;
    StartedAgrees(config, now, site);
    RunAgrees(a, start, site, fs, replies);
  }

  /**
   * While each run has room for what it sends: after m runs exactly n - m * max_uploads of the
   * n wanted partitions are left, and none once m * max_uploads reaches n. The runs may be at
   * any times at which those partitions are within the horizon, and may find any others that
   * they pass by.
   */
  lemma {:induction false} DrainsWhileRoom(a: Authority, config: Config, nows: seq<nat>, site: Site, fs: seq<Found>,
                                           wanted: set<string>, replies: nat -> Reply)
    requires DistinctObjects(fs, wanted)
    requires forall i | 0 <= i < |nows| :: Wanted(a, config, nows[i], Read(site.ledger), fs, wanted)
    requires forall i :: replies(i) == Answered
    requires RoomThroughout(a, config, nows, site, fs, wanted, replies)
    ensures var n := Missing(fs, wanted, Read(site.ledger).entries);
      Missing(fs, wanted, Read(Runs(a, config, nows, site, fs, replies).ledger).entries) ==
      n - Min(n, Capacity(|nows|, config))
    decreases |nows|
  {
    hide Capacity, Read, Wanted, AfterRun, Started, Missing, Rate, DistinctObjects, HasRoom;
    if nows == [] {
      NoCapacity(config);
    } else {
      OneRunDrains(a, config, nows[0], site, fs, wanted, replies);
      var s := AfterRun(a, config, nows[0], site, fs, replies);
      WantedLater(a, config, nows, Read(site.ledger), Read(s.ledger), fs, wanted);
      DrainsWhileRoom(a, config, nows[1..], s, fs, wanted, replies);
      MoreCapacity(|nows[1..]|, config);
    }
  }

  lemma WantedLater(a: Authority, config: Config, nows: seq<nat>, g: Reading, after: Reading, fs: seq<Found>,
                    wanted: set<string>)
    requires nows != [] && forall i | 0 <= i < |nows| :: Wanted(a, config, nows[i], g, fs, wanted)
    requires g.entries.Keys <= after.entries.Keys && g.inconsistent == after.inconsistent
    ensures forall i | 0 <= i < |nows[1..]| :: Wanted(a, config, nows[1..][i], after, fs, wanted)
  {
    hide Wanted;
    forall i | 0 <= i < |nows[1..]| ensures Wanted(a, config, nows[1..][i], after, fs, wanted) {
      assert nows[1..][i] == nows[i + 1];
      WantedStays(a, config, nows[i + 1], g, after, fs, wanted);
    }
  }

  lemma NoCapacity(config: Config)
    ensures Capacity(0, config) == 0
  {
  }

  lemma MoreCapacity(m: nat, config: Config)
    ensures Capacity(m + 1, config) == Capacity(m, config) + Rate(config)
  {
    assert (m + 1) * Rate(config) == m * Rate(config) + Rate(config);
  }

  // ---- Room from the start -------------------------------------------------

  /** What a window weighs with all that is still to be sent. */
  ghost function Load(m: map<string, Entry>, fs: seq<Found>, wanted: set<string>, start: int): int {
    WindowSum(m, start) + MissingBytes(fs, wanted, m)
  }

  /** At the times of the runs: the window then, of what is on record now, and all that is still to be sent fit the budget. */
  ghost predicate Ample(config: Config, nows: seq<nat>, m: map<string, Entry>, fs: seq<Found>, wanted: set<string>) {
    forall now | now in nows :: AmpleFrom(config, m, fs, wanted, WindowStart(config.windowDays, now))
  }

  ghost predicate AmpleFrom(config: Config, m: map<string, Entry>, fs: seq<Found>, wanted: set<string>, start: int) {
    Load(m, fs, wanted, start) <= config.budgetBytes
  }

  lemma {:induction false} NextWithinMissing(fs: seq<Found>, wanted: set<string>, m: map<string, Entry>, q: nat)
    ensures NextBytes(fs, wanted, m, q) <= MissingBytes(fs, wanted, m)
    decreases |fs|
  {
    hide IsMissing, PackedSize;
    if fs != [] && q > 0 {
      MissingBytesFirst(fs, wanted, m);
      NextWithinMissing(fs[1..], wanted, m, if IsMissing(fs[0], wanted, m) then q - 1 else q);
    }
  }

  lemma {:induction false} MissingBytesFirst(fs: seq<Found>, wanted: set<string>, m: map<string, Entry>)
    requires fs != []
    ensures MissingBytes(fs, wanted, m) ==
            MissingBytes(fs[1..], wanted, m) + if IsMissing(fs[0], wanted, m) then PackedSize(fs[0]) else 0
    decreases |fs|
  {
    hide IsMissing, PackedSize;
    if |fs| > 1 {
      MissingBytesFirst(fs[..|fs| - 1], wanted, m);
      assert fs[..|fs| - 1][1..] == fs[1..][..|fs| - 2];
    }
  }

  /** No turn of a run makes that more. */
  lemma VisitLoad(a: Authority, r: Run, s: Site, fs: seq<Found>, wanted: set<string>, k: nat, start: int)
    requires k < |fs| && DistinctObjects(fs, wanted)
    requires WantedOrPassed(a, r.config, r.now, Reading(r.cache, r.inconsistent), fs[k], wanted)
    ensures Load(Visit(a, r, s, fs[k], Answered).0.cache, fs, wanted, start) <= Load(r.cache, fs, wanted, start)
  {
    hide Decide, AppendText, PutNew, PackedSize, Eligible, PassedBy, NameOf, MissingBytes, WindowSum, Count, Missing;
    var plan := Decide(a, r, fs[k]);
    if plan.Send? {
      SendMeans(a, r, fs[k], plan.body, plan.manifestHash);
      if NameOf(fs[k]) in wanted {
        DecideEligible(a, r, fs[k]);
        var e := EntryOf(SentRecord(a, r, fs[k], plan.body, plan.manifestHash, NameOf(fs[k]) !in s.objects));
        MissingAdd(fs, wanted, r.cache, k, e);
        WindowSumAdd(r.cache, start, NameOf(fs[k]), e);
      } else {
        DecidePassedBy(a, r, fs[k]);
      }
    }
  }

  lemma {:induction false} RunLoad(a: Authority, run: Run, site: Site, fs: seq<Found>, wanted: set<string>,
                                   replies: nat -> Reply, k: nat, start: int)
    requires k <= |fs| && DistinctObjects(fs, wanted) && forall i :: replies(i) == Answered
    requires Wanted(a, run.config, run.now, Reading(run.cache, run.inconsistent), fs, wanted)
    ensures var r := VisitAll(a, run, site, fs[..k], replies).0;
      && r.config == run.config && r.now == run.now && r.inconsistent == run.inconsistent
      && run.cache.Keys <= r.cache.Keys
      && Load(r.cache, fs, wanted, start) <= Load(run.cache, fs, wanted, start)
  {
    hide Visit, Wanted, Load, DistinctObjects, WantedOrPassed;
    if k == 0 {
      assert fs[..0] == [];
    } else {
      RunLoad(a, run, site, fs, wanted, replies, k - 1, start);
      assert fs[..k][..k - 1] == fs[..k - 1];
      var (r, s) := VisitAll(a, run, site, fs[..k - 1], replies);
      if !r.aborted {
        WantedStays(a, r.config, r.now, Reading(run.cache, run.inconsistent), Reading(r.cache, r.inconsistent), fs, wanted);
        WantedAt(a, r.config, r.now, Reading(r.cache, r.inconsistent), fs, wanted, k - 1);
        VisitLoad(a, r, s, fs, wanted, k - 1, start);
        VisitKeeps(a, r, s, fs[k - 1], Answered);
        VisitCacheGrows(a, r, s, fs[k - 1], Answered);
      }
    }
  }

  lemma WantedAt(a: Authority, config: Config, now: nat, g: Reading, fs: seq<Found>, wanted: set<string>, k: nat)
    requires k < |fs| && Wanted(a, config, now, g, fs, wanted)
    ensures WantedOrPassed(a, config, now, g, fs[k], wanted)
  {
    hide WantedOrPassed;
  }

  /** Room at the start for all that is to be sent, in every run's own window, is room throughout. */
  lemma {:induction false} AmpleIsRoom(a: Authority, config: Config, nows: seq<nat>, site: Site, fs: seq<Found>,
                                       wanted: set<string>, replies: nat -> Reply)
    requires DistinctObjects(fs, wanted) && forall i :: replies(i) == Answered
    requires forall i | 0 <= i < |nows| :: Wanted(a, config, nows[i], Read(site.ledger), fs, wanted)
    requires Ample(config, nows, Read(site.ledger).entries, fs, wanted)
    ensures RoomThroughout(a, config, nows, site, fs, wanted, replies)
    decreases |nows|
  {
    hide Read, Wanted, AfterRun, DistinctObjects, AmpleFrom, Missing;
    if nows != [] {
      var s := AfterRun(a, config, nows[0], site, fs, replies);
      assert nows[0] in nows;
      AmpleNow(config, nows[0], Read(site.ledger).entries, fs, wanted);
      AmpleAfter(a, config, nows[0], site, fs, wanted, replies);
      forall now | now in nows[1..]
        ensures AmpleFrom(config, Read(s.ledger).entries, fs, wanted, WindowStart(config.windowDays, now)) {
        assert now in nows;
      }
      WantedLater(a, config, nows, Read(site.ledger), Read(s.ledger), fs, wanted);
      AmpleIsRoom(a, config, nows[1..], s, fs, wanted, replies);
    }
  }

  lemma AmpleNow(config: Config, now: nat, m: map<string, Entry>, fs: seq<Found>, wanted: set<string>)
    requires AmpleFrom(config, m, fs, wanted, WindowStart(config.windowDays, now))
    ensures HasRoom(config, now, m, fs, wanted)
  {
    hide Missing, MissingBytes, NextBytes, WindowSum;
    NextWithinMissing(fs, wanted, m, Rate(config));
  }

  lemma AmpleAfter(a: Authority, config: Config, now: nat, site: Site, fs: seq<Found>, wanted: set<string>,
                   replies: nat -> Reply)
    requires DistinctObjects(fs, wanted) && Wanted(a, config, now, Read(site.ledger), fs, wanted)
    requires forall i :: replies(i) == Answered
    ensures var before, after := Read(site.ledger), Read(AfterRun(a, config, now, site, fs, replies).ledger);
      && before.inconsistent == after.inconsistent && before.entries.Keys <= after.entries.Keys
      && forall start: int | AmpleFrom(config, before.entries, fs, wanted, start) ::
           AmpleFrom(config, after.entries, fs, wanted, start)
  {
    hide Read, Wanted, VisitAll, DistinctObjects, MissingBytes, WindowSum;
    var run := Started(config, now, site.ledger);
    assert Reading(run.cache, run.inconsistent) == Read(site.ledger);
    assert fs[..|fs|] == fs;
    StartedAgrees(config, now, site);
    RunAgrees(a, run, site, fs, replies);
    RunLoad(a, run, site, fs, wanted, replies, |fs|, 0);
    forall start: int | AmpleFrom(config, Read(site.ledger).entries, fs, wanted, start)
      ensures AmpleFrom(config, Read(AfterRun(a, config, now, site, fs, replies).ledger).entries, fs, wanted, start) {
      RunLoad(a, run, site, fs, wanted, replies, |fs|, start);
    }
  }

  /** So with room at the start m runs leave exactly n - m * max_uploads, and none once that reaches n. */
  lemma {:induction false} Drains(a: Authority, config: Config, nows: seq<nat>, site: Site, fs: seq<Found>,
                                  wanted: set<string>, replies: nat -> Reply)
    requires DistinctObjects(fs, wanted)
    requires forall i | 0 <= i < |nows| :: Wanted(a, config, nows[i], Read(site.ledger), fs, wanted)
    requires forall i :: replies(i) == Answered
    requires Ample(config, nows, Read(site.ledger).entries, fs, wanted)
    ensures var n := Missing(fs, wanted, Read(site.ledger).entries);
      Missing(fs, wanted, Read(Runs(a, config, nows, site, fs, replies).ledger).entries) ==
      n - Min(n, Capacity(|nows|, config))
  {
    hide Read, Wanted, Runs, Capacity, Missing, DistinctObjects, Ample, RoomThroughout;
    AmpleIsRoom(a, config, nows, site, fs, wanted, replies);
    DrainsWhileRoom(a, config, nows, site, fs, wanted, replies);
  }

  /** All wanted ones are on record after m runs exactly when m runs can carry them all: m >= n / max_uploads, rounded up. */
  lemma {:induction false} DrainedExactly(a: Authority, config: Config, nows: seq<nat>, site: Site, fs: seq<Found>,
        wanted: set<string>, replies: nat -> Reply)
    requires DistinctObjects(fs, wanted)
    requires forall i | 0 <= i < |nows| :: Wanted(a, config, nows[i], Read(site.ledger), fs, wanted)
    requires forall i :: replies(i) == Answered
    requires RoomThroughout(a, config, nows, site, fs, wanted, replies)
    ensures var last := Read(Runs(a, config, nows, site, fs, replies).ledger).entries;
      (forall i | 0 <= i < |fs| && NameOf(fs[i]) in wanted :: NameOf(fs[i]) in last) <==>
      Missing(fs, wanted, Read(site.ledger).entries) <= Capacity(|nows|, config)
  {
    hide Read, Wanted, Runs, NameOf, Capacity, DistinctObjects, RoomThroughout;
    DrainsWhileRoom(a, config, nows, site, fs, wanted, replies);
    NoneMissing(fs, wanted, Read(Runs(a, config, nows, site, fs, replies).ledger).entries);
  }

  lemma {:induction false} NoneMissing(fs: seq<Found>, wanted: set<string>, m: map<string, Entry>)
    ensures Missing(fs, wanted, m) == 0 <==> forall i | 0 <= i < |fs| && NameOf(fs[i]) in wanted :: NameOf(fs[i]) in m
  {
    hide NameOf;
    if fs != [] {
      NoneMissing(fs[..|fs| - 1], wanted, m);
      assert forall i | 0 <= i < |fs| - 1 :: fs[..|fs| - 1][i] == fs[i];
    }
  }
}
