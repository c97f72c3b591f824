/**
 * One backup run: what it decides for each partition it finds, what it sends, what it
 * appends to the ledger, and what it reports.
 *
 * `Visit` is one turn of the loop as a function of the run and of the site it works on
 * (ledger text and bucket). A PUT may fail with or without having stored the object.
 */
module Backup {
  import opened Wrappers
  import opened Framing
  import opened Ledger
  import opened PartitionTar
  import opened CaptureArchive
  import ObjectName

  const NANOS := 1_000_000_000
  const DAY_SECONDS := 86_400
  const STALE_UNCOMPACTED_SECONDS := 2 * 3600

  datatype Config = Config(horizonDays: int, budgetBytes: int, windowDays: int, maxUploads: int)

  /** A partition as a run finds it; `finalizedAt` is its manifest's modification time in nanoseconds. */
  datatype Found = Found(rootLabel: string, relative: string, listing: Listing, finalizedAt: int)

  datatype Failure =
    | PathFailure(error: PathError)
    | UnexpectedPartitionFile(name: string)
    | PutFailed

  datatype Outcome =
    | Sent
    | Conflict
    | Skipped
    | AlreadyRecorded
    | OtherManifest
    | Disagreeing
    | Pending
    | Stale
    | BeyondHorizon
    | Deferred
    | OverBudget
    | Failed(failure: Failure)

  /**
   * What a PUT reports: an answer of the service, or an error that hides whether it stored.
   * The store reports most errors; an answer that breaks off (`http.client.HTTPException`)
   * it does not catch.
   */
  datatype Reply = Answered | TransportError(stored: bool) | BrokenOff(stored: bool)

  datatype Run = Run(
    config: Config,
    now: nat,
    cache: map<string, Entry>,
    inconsistent: set<string>,
    windowBytes: int,
    outcomes: seq<Outcome>,
    aborted: bool)

  datatype Site = Site(ledger: string, objects: map<string, Bytes>)

  function NameOf(f: Found): string {
    ObjectName.ObjectName(f.rootLabel, f.relative)
  }

  function Count(os: seq<Outcome>, o: Outcome): nat {
    if os == [] then 0 else Count(os[..|os| - 1], o) + if os[|os| - 1] == o then 1 else 0
  }

  /** Objects this run has put on record. */
  function SentCount(os: seq<Outcome>): nat {
    Count(os, Sent) + Count(os, Conflict)
  }

  // ---- What a run decides for one partition --------------------------------

  datatype Plan = Settle(outcome: Outcome) | Send(body: Bytes, manifestHash: string) | Abort

  function Age(run: Run, f: Found): int {
    run.now - f.finalizedAt
  }

  function Decide(a: Authority, run: Run, f: Found): Plan {
    if Holds(f.listing, OPEN_MARKER) || !Holds(f.listing, MANIFEST) then Settle(Skipped)
    else
      match ManifestOf(a, FilesIn(f.listing))
      case None => Abort
      case Some(m) => DecideRecorded(a, run, f, m.contentHash)
  }

  function DecideRecorded(a: Authority, run: Run, f: Found, manifestHash: string): Plan {
    if NameOf(f) in run.cache then
      Settle(if run.cache[NameOf(f)].manifestHash != manifestHash then OtherManifest else AlreadyRecorded)
    else if NameOf(f) in run.inconsistent then Settle(Disagreeing)
    else if Holds(f.listing, RAW_RECORDS) || !Holds(f.listing, COMPACTION) then
      Settle(if Age(run, f) > STALE_UNCOMPACTED_SECONDS * NANOS then Stale else Pending)
    else if Age(run, f) > run.config.horizonDays * DAY_SECONDS * NANOS then Settle(BeyondHorizon)
    else
      match a.complete(FilesIn(f.listing))
      case None => Abort
      case Some(complete) => if complete then DecideComplete(a, run, f, manifestHash) else Settle(Skipped)
  }

  function DecideComplete(a: Authority, run: Run, f: Found, manifestHash: string): Plan {
    if SentCount(run.outcomes) >= run.config.maxUploads then Settle(Deferred)
    else if Count(run.outcomes, OverBudget) > 0 then Settle(OverBudget)
    else DecideBody(a, run, f, manifestHash)
  }

  function DecideBody(a: Authority, run: Run, f: Found, manifestHash: string): Plan {
    match CanonicalPathError(a, FilesIn(f.listing), f.rootLabel, f.relative)
    case Some(e) => Settle(Failed(PathFailure(e)))
    case None =>
      match Pack(f.listing, f.relative)
      case Err(UnexpectedFile(n)) => Settle(Failed(UnexpectedPartitionFile(n)))
      case Err(DoesNotFit(_)) => Abort
      case Ok(body) =>
        if run.windowBytes + |body| > run.config.budgetBytes then Settle(OverBudget) else Send(body, manifestHash)
  }

  // ---- One turn of the loop ------------------------------------------------

  /** The ledger line of an answered PUT. */
  function SentRecord(a: Authority, run: Run, f: Found, body: Bytes, manifestHash: string, created: bool): Record {
    Record(NameOf(f), manifestHash, a.sha(body), |body|, run.now / NANOS,
           if created then UPLOADED else REMOTE_EXISTS_UNVERIFIED)
  }

  function Noted(run: Run, o: Outcome): Run {
    run.(outcomes := run.outcomes + [o])
  }

  /** Create-if-absent: `If-None-Match: *` (section 13.1.2 of RFC 9110). */
  function PutNew(objects: map<string, Bytes>, name: string, body: Bytes): map<string, Bytes> {
    if name in objects then objects else objects[name := body]
  }

  function Recorded(a: Authority, run: Run, f: Found, body: Bytes, manifestHash: string, created: bool): Run {
    var r := SentRecord(a, run, f, body, manifestHash, created);
    Noted(run, if created then Sent else Conflict).(
      cache := run.cache[r.name := EntryOf(r)],
      windowBytes := run.windowBytes + r.size)
  }

  function Visit(a: Authority, run: Run, site: Site, f: Found, reply: Reply): (Run, Site) {
    Perform(a, run, site, f, Decide(a, run, f), reply)
  }

  function Perform(a: Authority, run: Run, site: Site, f: Found, plan: Plan, reply: Reply): (Run, Site) {
    match plan
    case Settle(o) => (Noted(run, o), site)
    case Abort => (run.(aborted := true), site)
    case Send(body, manifestHash) =>
      match reply
      case TransportError(stored) =>
        (Noted(run, Failed(PutFailed)),
         site.(objects := if stored then PutNew(site.objects, NameOf(f), body) else site.objects))
      case BrokenOff(stored) =>
        (run.(aborted := true),
         site.(objects := if stored then PutNew(site.objects, NameOf(f), body) else site.objects))
      case Answered =>
        var created := NameOf(f) !in site.objects;
        (Recorded(a, run, f, body, manifestHash, created),
         Site(site.ledger + AppendText(site.ledger, SentRecord(a, run, f, body, manifestHash, created)),
              PutNew(site.objects, NameOf(f), body)))
  }

  function VisitAll(a: Authority, run: Run, site: Site, fs: seq<Found>, replies: nat -> Reply): (Run, Site) {
    if fs == [] then (run, site)
    else
      var (r, s) := VisitAll(a, run, site, fs[..|fs| - 1], replies);
      if r.aborted then (r, s) else Visit(a, r, s, fs[|fs| - 1], replies(|r.outcomes|))
  }

  // ---- The sliding window --------------------------------------------------

  function WindowStart(days: int, now: int): int {
    now - days * DAY_SECONDS * NANOS
  }

  /** Bytes an entry adds to a window that starts after `start` (nanoseconds). */
  function Weight(e: Entry, start: int): int {
    if e.firstAt * NANOS > start then e.size else 0
  }

  ghost function WindowSum(m: map<string, Entry>, start: int): int
    decreases |m|
  {
    if m == map[] then 0
    else
      var n :| n in m;
      Weight(m[n], start) + WindowSum(m - {n}, start)
  }

  lemma {:induction false} WindowSumWithout(m: map<string, Entry>, start: int, n: string)
    requires n in m
    ensures WindowSum(m, start) == Weight(m[n], start) + WindowSum(m - {n}, start)
    decreases |m|
  {
    var k :| k in m && WindowSum(m, start) == Weight(m[k], start) + WindowSum(m - {k}, start);
    if k != n {
      WindowSumWithout(m - {k}, start, n);
      WindowSumWithout(m - {n}, start, k);
      assert m - {k} - {n} == m - {n} - {k};
    }
  }

  lemma WindowSumAdd(m: map<string, Entry>, start: int, n: string, e: Entry)
    requires n !in m
    ensures WindowSum(m[n := e], start) == WindowSum(m, start) + Weight(e, start)
  {
    WindowSumWithout(m[n := e], start, n);
    assert m[n := e] - {n} == m;
  }

  /** Changing what is not weighed changes no window. */
  lemma WindowSumReplace(m: map<string, Entry>, start: int, n: string, e: Entry)
    requires n in m && e.size == m[n].size && e.firstAt == m[n].firstAt
    ensures WindowSum(m[n := e], start) == WindowSum(m, start)
  {
    WindowSumWithout(m[n := e], start, n);
    WindowSumWithout(m, start, n);
    assert m[n := e] - {n} == m - {n};
  }

  /** Nothing but sizes and times is weighed. */
  lemma {:induction false} WindowSumSame(m: map<string, Entry>, n: map<string, Entry>, start: int)
    requires m.Keys == n.Keys && forall k | k in m :: n[k].size == m[k].size && n[k].firstAt == m[k].firstAt
    ensures WindowSum(m, start) == WindowSum(n, start)
    decreases |m|
  {
    if m == map[] {
      assert n == map[];
    } else {
      var k :| k in m;
      WindowSumWithout(m, start, k);
      WindowSumWithout(n, start, k);
      assert (m - {k}).Keys == m.Keys - {k} == (n - {k}).Keys;
      WindowSumSame(m - {k}, n - {k}, start);
    }
  }

  ghost predicate SizesAreNatural(m: map<string, Entry>) {
    forall n | n in m :: m[n].size >= 0
  }

  /** A window that starts later weighs no more. */
  lemma {:induction false} WindowSumMonotone(m: map<string, Entry>, early: int, late: int)
    requires early <= late && SizesAreNatural(m)
    ensures 0 <= WindowSum(m, late) <= WindowSum(m, early)
    decreases |m|
  {
    if m != map[] {
      var n :| n in m;
      WindowSumWithout(m, early, n);
      WindowSumWithout(m, late, n);
      WindowSumMonotone(m - {n}, early, late);
    }
  }

  /** The reader's sum over the entries, in whatever order they come. */
  method SumWindow(m: map<string, Entry>, start: int) returns (total: int)
    ensures total == WindowSum(m, start)
  {
    total := 0;
    var rest := m;
    while rest != map[]
      invariant total + WindowSum(rest, start) == WindowSum(m, start)
      decreases |rest|
    {
      var n :| n in rest;
      WindowSumWithout(rest, start, n);
      if rest[n].firstAt * NANOS > start {
        total := total + rest[n].size;
      }
      rest := rest - {n};
    }
  }
}
