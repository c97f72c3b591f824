/**
 * The whole off-site backup as a transition system: backup runs, receipts being accepted
 * beside them, crashes at any point of a PUT or an append, restore drills on other hosts,
 * receipts that come back whole or cut off, and anything at all happening to the bucket.
 * Every sequence of attempted events is a history.
 *
 * `uploads` and `replays` record what has really happened; they are never read by a command.
 */
module OffsiteSystem {
  import opened Wrappers
  import opened Framing
  import opened Ledger
  import opened PartitionTar
  import opened CaptureArchive
  import opened Backup
  import opened BackupRun
  import opened BackupFacts
  import opened Receipts
  import Restore
  import ObjectName

  /** A PUT the service answered: the partition's files as packed then, and whether it created the object. */
  datatype Upload = Upload(name: string, relative: string, files: Files, body: Bytes, created: bool)

  /** A download that a restore drill verified. */
  datatype Replay = Replay(name: string, body: Bytes, files: Files)

  /** A command that accepts a receipt, and the lines it has yet to read. */
  datatype Accepting = Accepting(acceptance: Acceptance, now: nat, lines: seq<string>)

  /** A drill on another host: what it restored and verified so far, and its copy of the ledger. */
  datatype Drilling = Drilling(tree: Restore.Tree, verified: seq<Restored>, ledgerCopy: Option<map<string, Entry>>)

  /** At most one backup runs at a time; acceptances and drills are as many as there are. */
  datatype World = World(site: Site, clock: nat, backup: Option<Run>, acceptances: map<nat, Accepting>,
                         drills: map<nat, Drilling>, receipts: set<string>, uploads: set<Upload>, replays: set<Replay>)

  /**
   * `BlankLine` is the newline too many of a command that looked at the end of the file
   * before another one closed its last line.
   */
  datatype Event =
    | Tick(now: nat)
    | StartBackup(config: Config)
    | VisitNext(found: Found, reply: Reply)
    | DieVisiting(found: Found, written: nat)
    | EndBackup
    | StartAccept(k: nat, receipt: string, arrived: nat)
    | AcceptNext(k: nat)
    | DieAccepting(k: nat, written: nat)
    | EndAccept(k: nat)
    | StartDrill(k: nat, ledgerCopy: Option<map<string, Entry>>)
    | DrillNext(k: nat, name: string, download: Restore.Download)
    | EndDrill(k: nat, verifiedAt: int)
    | BlankLine
    | BucketChanges(objects: map<string, Bytes>)

  const START := World(Site("", map[]), 0, None, map[], map[], {}, {}, {})

  // ---- What each event does ------------------------------------------------

  ghost function UploadOf(a: Authority, run: Run, site: Site, f: Found): set<Upload> {
    var plan := Decide(a, run, f);
    if plan.Send? then
      {Upload(NameOf(f), f.relative, KeptFiles(f.listing), plan.body, NameOf(f) !in site.objects)}
    else {}
  }

  ghost function Visited(a: Authority, w: World, f: Found, reply: Reply): World
    requires w.backup.Some?
  {
    var run := w.backup.value;
    var (r, s) := Visit(a, run, w.site, f, reply);
    w.(site := s, backup := if r.aborted then None else Some(r),
       uploads := w.uploads + if reply.Answered? then UploadOf(a, run, w.site, f) else {})
  }

  /** The PUT is answered; then the process dies with part of the ledger line written, or none. */
  ghost function DiedVisiting(a: Authority, w: World, f: Found, written: nat): World
    requires w.backup.Some?
  {
    var run := w.backup.value;
    match Decide(a, run, f)
    case Settle(_) => w.(backup := None)
    case Abort => w.(backup := None)
    case Send(body, manifestHash) =>
      var r := SentRecord(a, run, f, body, manifestHash, NameOf(f) !in w.site.objects);
      w.(site := Site(Write(w.site.ledger, Attempt(r, written)), PutNew(w.site.objects, NameOf(f), body)),
         backup := None, uploads := w.uploads + UploadOf(a, run, w.site, f))
  }

  ghost function Accepted(w: World, k: nat): World
    requires k in w.acceptances && w.acceptances[k].lines != []
  {
    var c := w.acceptances[k];
    var (acc, ledger) := AcceptLine(c.acceptance, w.site.ledger, c.lines[0], c.now);
    w.(site := w.site.(ledger := ledger), acceptances := w.acceptances[k := Accepting(acc, c.now, c.lines[1..])])
  }

  ghost function DiedAccepting(w: World, k: nat, written: nat): World
    requires k in w.acceptances && w.acceptances[k].lines != []
  {
    var c := w.acceptances[k];
    var gone := w.(acceptances := w.acceptances - {k});
    match Judge(c.acceptance, c.lines[0])
    case Accept(name) =>
      var r := VerifiedRecord(name, c.acceptance.cache[name], c.now);
      gone.(site := w.site.(ledger := Write(w.site.ledger, Attempt(r, written))))
    case _ => gone
  }

  /** The download of one object in a drill, from the bucket as it is then; an uncaught error ends the drill. */
  ghost function Drilled(a: Authority, w: World, k: nat, name: string, download: Restore.Download): World
    requires k in w.drills
  {
    var d := w.drills[k];
    var (outcome, tree) := Restore.Drill(a, w.site.objects, d.ledgerCopy, d.tree, name, download);
    match outcome
    case Raised => w.(drills := w.drills - {k})
    case NotVerified(_) => w.(drills := w.drills[k := d.(tree := tree)])
    case Verified(restored) =>
      w.(drills := w.drills[k := d.(tree := tree, verified := d.verified + [restored])],
         replays := w.replays + ReplayOf(w.site.objects, name, tree))
  }

  ghost function ReplayOf(objects: map<string, Bytes>, name: string, tree: Restore.Tree): set<Replay> {
    if name in objects && ObjectName.Parse(name).Ok? then
      var (rootLabel, relative) := ObjectName.Parse(name).value;
      if Restore.TargetOf(rootLabel, relative) in tree then
        {Replay(name, objects[name], tree[Restore.TargetOf(rootLabel, relative)])}
      else {}
    else {}
  }

  /** The receipt of a drill: a line for each object it verified. */
  ghost function DrillEnded(w: World, k: nat, verifiedAt: int): World
    requires k in w.drills
  {
    w.(drills := w.drills - {k}, receipts := w.receipts + {ReceiptText(w.drills[k].verified, verifiedAt)})
  }

  ghost predicate Enabled(w: World, e: Event) {
    match e
    case Tick(now) => w.clock <= now
    case StartBackup(config) => w.backup.None? && GoodConfig(config)
    case VisitNext(f, _) => w.backup.Some? && DistinctNames(f.listing)
    case DieVisiting(f, _) => w.backup.Some? && DistinctNames(f.listing)
    case EndBackup => true
    case StartAccept(k, receipt, arrived) => k !in w.acceptances && receipt in w.receipts && arrived <= |receipt|
    case AcceptNext(k) => k in w.acceptances && w.acceptances[k].lines != []
    case DieAccepting(k, _) => k in w.acceptances && w.acceptances[k].lines != []
    case EndAccept(k) => true
    case StartDrill(k, _) => k !in w.drills
    case DrillNext(k, _, _) => k in w.drills
    case EndDrill(k, _) => k in w.drills
    case BlankLine => true
    case BucketChanges(_) => true
  }

  ghost function Apply(a: Authority, w: World, e: Event): World
    requires Enabled(w, e)
  {
    match e
    case Tick(now) => w.(clock := now)
    case StartBackup(config) => w.(backup := Some(Started(config, w.clock, w.site.ledger)))
    case VisitNext(f, reply) => Visited(a, w, f, reply)
    case DieVisiting(f, written) => DiedVisiting(a, w, f, written)
    case EndBackup => w.(backup := None)
    case StartAccept(k, receipt, arrived) =>
      w.(acceptances := w.acceptances[k := Accepting(AcceptStarted(w.site.ledger), w.clock, Lines(receipt[..arrived]))])
    case AcceptNext(k) => Accepted(w, k)
    case DieAccepting(k, written) => DiedAccepting(w, k, written)
    case EndAccept(k) => w.(acceptances := w.acceptances - {k})
    case StartDrill(k, ledgerCopy) => w.(drills := w.drills[k := Drilling(map[], [], ledgerCopy)])
    case DrillNext(k, name, download) => Drilled(a, w, k, name, download)
    case EndDrill(k, verifiedAt) => DrillEnded(w, k, verifiedAt)
    case BlankLine => w.(site := w.site.(ledger := w.site.ledger + "\n"))
    case BucketChanges(objects) => w.(site := w.site.(objects := objects))
  }

  /** An event that cannot happen changes nothing. */
  ghost function Next(a: Authority, w: World, e: Event): World {
    if Enabled(w, e) then Apply(a, w, e) else w
  }

  ghost function History(a: Authority, events: seq<Event>): World {
    if events == [] then START else Next(a, History(a, events[..|events| - 1]), events[|events| - 1])
  }

  // ---- The invariant -------------------------------------------------------

  ghost predicate UploadGood(u: Upload) {
    && ObjectName.Parse(u.name).Ok? && ObjectName.Parse(u.name).value.1 == u.relative
    && u.files.Keys == PARTITION_FILES
    && Extract(u.body, u.relative) == Ok(u.files)
  }

  ghost predicate ReplayGood(r: Replay) {
    && ObjectName.Parse(r.name).Ok?
    && r.files.Keys == PARTITION_FILES
    && Extract(r.body, ObjectName.Parse(r.name).value.1) == Ok(r.files)
  }

  ghost predicate HistoryGood(w: World) {
    (forall u | u in w.uploads :: UploadGood(u)) && (forall r | r in w.replays :: ReplayGood(r))
  }

  /** The entry stands for an answered PUT of exactly these bytes, one that created the object if it says so. */
  ghost predicate WasSent(a: Authority, uploads: set<Upload>, n: string, e: Entry) {
    exists u :: u in uploads && u.name == n && a.sha(u.body) == e.tarSha && |u.body| == e.size
                && (e.state.Uploaded? ==> u.created)
  }

  ghost predicate Replayed(a: Authority, replays: set<Replay>, name: string, tarSha: string) {
    exists r :: r in replays && r.name == name && a.sha(r.body) == tarSha
  }

  /** A verified entry names the digest of bytes that were downloaded and replayed. */
  ghost predicate WasReplayed(a: Authority, replays: set<Replay>, n: string, e: Entry) {
    e.state.RestoreVerified? ==> Replayed(a, replays, n, e.tarSha)
  }

  ghost predicate Founded(a: Authority, w: World, entries: map<string, Entry>) {
    forall n | n in entries :: WasSent(a, w.uploads, n, entries[n]) && WasReplayed(a, w.replays, n, entries[n])
  }

  ghost predicate LedgerInv(a: Authority, w: World) {
    var g := Read(w.site.ledger);
    && HistoryGood(w)
    && Founded(a, w, g.entries)
    && g.inconsistent == {}
    && SizesAreNatural(g.entries)
  }

  /** The file says what memory says, or has upgraded it to RESTORE_VERIFIED since. */
  ghost predicate UpToUpgrades(cache: map<string, Entry>, entries: map<string, Entry>) {
    forall n | n in cache ::
      && n in entries
      && (entries[n] == cache[n] || entries[n] == cache[n].(state := RestoreVerified))
  }

  /** A running backup: it knows every name of the file, up to upgrades, and its total is its window's sum. */
  ghost predicate RunAgreesWith(run: Run, g: Reading, clock: nat) {
    && run.cache.Keys == g.entries.Keys && UpToUpgrades(run.cache, g.entries) && run.inconsistent == {}
    && WindowAgrees(run) && GoodConfig(run.config) && run.now <= clock && !run.aborted
  }

  ghost predicate BackupInv(w: World) {
    w.backup.Some? ==> RunAgreesWith(w.backup.value, Read(w.site.ledger), w.clock)
  }

  /** Every line states nothing, or the digest of bytes that a drill downloaded and verified. */
  ghost predicate Honest(a: Authority, replays: set<Replay>, lines: seq<string>) {
    forall i | 0 <= i < |lines| && Statement(lines[i]).Some? ::
      Replayed(a, replays, Statement(lines[i]).value.0, Statement(lines[i]).value.1)
  }

  ghost predicate AcceptingAgrees(a: Authority, c: Accepting, g: Reading, replays: set<Replay>) {
    UpToUpgrades(c.acceptance.cache, g.entries) && c.acceptance.inconsistent == {} && Honest(a, replays, c.lines)
  }

  ghost predicate AcceptInv(a: Authority, w: World) {
    forall k | k in w.acceptances :: AcceptingAgrees(a, w.acceptances[k], Read(w.site.ledger), w.replays)
  }

  /** Everything listed as verified was downloaded with that digest. */
  ghost predicate AllReplayed(a: Authority, replays: set<Replay>, rs: seq<Restored>) {
    forall i | 0 <= i < |rs| :: Replayed(a, replays, rs[i].name, rs[i].tarSha)
  }

  ghost predicate IsReceipt(a: Authority, replays: set<Replay>, text: string) {
    exists rs, verifiedAt :: text == ReceiptText(rs, verifiedAt) && AllReplayed(a, replays, rs)
  }

  ghost predicate DrillInv(a: Authority, w: World) {
    && (forall k | k in w.drills :: AllReplayed(a, w.replays, w.drills[k].verified))
    && (forall t | t in w.receipts :: IsReceipt(a, w.replays, t))
  }

  ghost predicate Inv(a: Authority, w: World) {
    LedgerInv(a, w) && BackupInv(w) && AcceptInv(a, w) && DrillInv(a, w)
  }

  // ---- What an event leaves alone ------------------------------------------

  lemma FoundedGrows(a: Authority, w: World, v: World, entries: map<string, Entry>)
    requires Founded(a, w, entries) && w.uploads <= v.uploads && w.replays <= v.replays
    ensures Founded(a, v, entries)
  {
  }

  lemma UpgradesGrow(cache: map<string, Entry>, g: Reading, h: Reading)
    requires UpToUpgrades(cache, g.entries) && Grows(g, h)
    ensures UpToUpgrades(cache, h.entries)
  {
  }

  lemma HonestGrows(a: Authority, replays: set<Replay>, more: set<Replay>, lines: seq<string>)
    requires Honest(a, replays, lines) && replays <= more
    ensures Honest(a, more, lines)
  {
    hide Statement;
  }

  /** An acceptance that does not move still agrees. */
  lemma AcceptingStays(a: Authority, c: Accepting, g: Reading, h: Reading, replays: set<Replay>, more: set<Replay>)
    requires AcceptingAgrees(a, c, g, replays) && Grows(g, h) && replays <= more
    ensures AcceptingAgrees(a, c, h, more)
  {
    hide UpToUpgrades, Grows, Honest;
    UpgradesGrow(c.acceptance.cache, g, h);
    HonestGrows(a, replays, more, c.lines);
  }

  lemma AcceptancesStay(a: Authority, w: World, v: World)
    requires AcceptInv(a, w) && w.replays <= v.replays && Grows(Read(w.site.ledger), Read(v.site.ledger))
    requires forall k | k in v.acceptances :: k in w.acceptances && v.acceptances[k] == w.acceptances[k]
    ensures AcceptInv(a, v)
  {
    hide Read, AcceptingAgrees, Grows;
    forall k | k in v.acceptances ensures AcceptingAgrees(a, v.acceptances[k], Read(v.site.ledger), v.replays) {
      AcceptingStays(a, w.acceptances[k], Read(w.site.ledger), Read(v.site.ledger), w.replays, v.replays);
    }
  }

  lemma ReplayedGrows(a: Authority, replays: set<Replay>, more: set<Replay>, rs: seq<Restored>)
    requires AllReplayed(a, replays, rs) && replays <= more
    ensures AllReplayed(a, more, rs)
  {
  }

  lemma DrillsStay(a: Authority, w: World, v: World)
    requires DrillInv(a, w) && w.replays <= v.replays && v.receipts == w.receipts
    requires forall k | k in v.drills :: k in w.drills && v.drills[k] == w.drills[k]
    ensures DrillInv(a, v)
  {
    hide AllReplayed;
    forall k | k in v.drills ensures AllReplayed(a, v.replays, v.drills[k].verified) {
      ReplayedGrows(a, w.replays, v.replays, w.drills[k].verified);
    }
    forall t | t in v.receipts ensures IsReceipt(a, v.replays, t) {
      ReceiptStays(a, w.replays, v.replays, t);
    }
  }

  lemma ReceiptStays(a: Authority, replays: set<Replay>, more: set<Replay>, t: string)
    requires IsReceipt(a, replays, t) && replays <= more
    ensures IsReceipt(a, more, t)
  {
    hide AllReplayed, ReceiptText;
    var rs, verifiedAt :| t == ReceiptText(rs, verifiedAt) && AllReplayed(a, replays, rs);
    ReplayedGrows(a, replays, more, rs);
  }

  lemma LedgerStays(a: Authority, w: World, v: World)
    requires LedgerInv(a, w) && v.uploads == w.uploads && v.replays == w.replays
    requires Read(v.site.ledger) == Read(w.site.ledger)
    ensures LedgerInv(a, v)
  {
    hide Read, UploadGood, ReplayGood;
    FoundedGrows(a, w, v, Read(w.site.ledger).entries);
  }

  lemma SameGrows(g: Reading)
    ensures Grows(g, g)
  {
  }

  /** An event that neither writes to the ledger nor ends a drill or starts an acceptance. */
  lemma QuietKeeps(a: Authority, w: World, v: World)
    requires Inv(a, w) && v.uploads == w.uploads && v.replays == w.replays && v.receipts == w.receipts
    requires Read(v.site.ledger) == Read(w.site.ledger) && BackupInv(v)
    requires forall k | k in v.acceptances :: k in w.acceptances && v.acceptances[k] == w.acceptances[k]
    requires forall k | k in v.drills :: k in w.drills && v.drills[k] == w.drills[k]
    ensures Inv(a, v)
  {
    hide Read, LedgerInv, AcceptInv, DrillInv, BackupInv, Grows;
    SameGrows(Read(w.site.ledger));
    LedgerStays(a, w, v);
    AcceptancesStay(a, w, v);
    DrillsStay(a, w, v);
  }

  // ---- Backup events -------------------------------------------------------

  /** A sent line enters its name as an object this client put, and nothing else changes. */
  lemma SentFolds(a: Authority, run: Run, g: Reading, f: Found, body: Bytes, manifestHash: string, created: bool)
    requires run.cache.Keys == g.entries.Keys && Decide(a, run, f) == Send(body, manifestHash)
    ensures var r := SentRecord(a, run, f, body, manifestHash, created);
      NameOf(f) !in g.entries && Fold(g, r) == g.(entries := g.entries[NameOf(f) := EntryOf(r)])
  {
    hide Decide, Fold;
    SendMeans(a, run, f, body, manifestHash);
    FoldNew(g, SentRecord(a, run, f, body, manifestHash, created));
  }

  lemma UploadOfGood(a: Authority, run: Run, site: Site, f: Found)
    requires WellFormed(a) && DistinctNames(f.listing)
    ensures forall u | u in UploadOf(a, run, site, f) :: UploadGood(u)
  {
    hide Decide, Extract, ObjectName.Parse, WellFormed;
    var plan := Decide(a, run, f);
    if plan.Send? {
      SentRestores(a, run, f, plan.body, plan.manifestHash, []);
      assert plan.body + [] == plan.body;
    }
  }

  /** One more entry, sent just now. */
  lemma FoundedSent(a: Authority, w: World, v: World, entries: map<string, Entry>, run: Run, site: Site, f: Found,
                    body: Bytes, manifestHash: string)
    requires Founded(a, w, entries) && w.replays == v.replays
    requires Decide(a, run, f) == Send(body, manifestHash)
    requires v.uploads == w.uploads + UploadOf(a, run, site, f)
    ensures var r := SentRecord(a, run, f, body, manifestHash, NameOf(f) !in site.objects);
      Founded(a, v, entries[r.name := EntryOf(r)])
  {
    hide Decide;
    var r := SentRecord(a, run, f, body, manifestHash, NameOf(f) !in site.objects);
    var u := Upload(NameOf(f), f.relative, KeptFiles(f.listing), body, NameOf(f) !in site.objects);
    assert u in v.uploads;
    FoundedGrows(a, w, v, entries);
    assert WasSent(a, v.uploads, r.name, EntryOf(r));
  }

  /** The ledger after an answered PUT, whether its line survived or not. */
  lemma SentLedger(a: Authority, w: World, v: World, f: Found)
    requires WellFormed(a) && LedgerInv(a, w) && BackupInv(w) && w.backup.Some? && DistinctNames(f.listing)
    requires var plan := Decide(a, w.backup.value, f);
      && plan.Send? && v.replays == w.replays && v.uploads == w.uploads + UploadOf(a, w.backup.value, w.site, f)
      && var r := SentRecord(a, w.backup.value, f, plan.body, plan.manifestHash, NameOf(f) !in w.site.objects);
         Read(v.site.ledger) == Read(w.site.ledger) || Read(v.site.ledger) == Fold(Read(w.site.ledger), r)
    ensures LedgerInv(a, v) && Grows(Read(w.site.ledger), Read(v.site.ledger))
  {
    hide Decide, Read, Fold, UploadGood, ReplayGood, WellFormed, WindowAgrees, UploadOf, GoodConfig;
    var run := w.backup.value;
    var plan := Decide(a, run, f);
    var created := NameOf(f) !in w.site.objects;
    UploadOfGood(a, run, w.site, f);
    SentFolds(a, run, Read(w.site.ledger), f, plan.body, plan.manifestHash, created);
    FoundedSent(a, w, v, Read(w.site.ledger).entries, run, w.site, f, plan.body, plan.manifestHash);
    FoundedGrows(a, w, v, Read(w.site.ledger).entries);
    assert HistoryGood(v);
    hide Founded, HistoryGood;
    SameGrows(Read(w.site.ledger));
  }

  /** The run's own view after an answered PUT. */
  lemma RunSends(a: Authority, run: Run, site: Site, f: Found, g: Reading, clock: nat)
    requires RunAgreesWith(run, g, clock) && Decide(a, run, f).Send?
    ensures var plan := Decide(a, run, f);
      var r := SentRecord(a, run, f, plan.body, plan.manifestHash, NameOf(f) !in site.objects);
      RunAgreesWith(Visit(a, run, site, f, Answered).0, Fold(g, r), clock)
  {
    hide Decide, Fold, WindowAgrees, AppendText, PutNew;
    var plan := Decide(a, run, f);
    SentFolds(a, run, g, f, plan.body, plan.manifestHash, NameOf(f) !in site.objects);
    VisitWindow(a, run, site, f, Answered);
  }

  lemma RunSettles(a: Authority, run: Run, site: Site, f: Found, reply: Reply, g: Reading, clock: nat)
    requires RunAgreesWith(run, g, clock) && (!Decide(a, run, f).Send? || !reply.Answered?)
    ensures var (r, s) := Visit(a, run, site, f, reply);
      s.ledger == site.ledger && (r.aborted || RunAgreesWith(r, g, clock))
  {
    hide Decide, WindowAgrees, PutNew;
    VisitWindow(a, run, site, f, reply);
  }

  lemma VisitedKeeps(a: Authority, w: World, f: Found, reply: Reply)
    requires WellFormed(a) && Inv(a, w) && w.backup.Some? && DistinctNames(f.listing)
    ensures Inv(a, Visited(a, w, f, reply))
  {
    hide Read, WellFormed, LedgerInv, AcceptInv, DrillInv, RunAgreesWith, Decide, Fold, Grows, AppendText;
    var run := w.backup.value;
    var v := Visited(a, w, f, reply);
    var plan := Decide(a, run, f);
    DrillsStay(a, w, v);
    if plan.Send? && reply.Answered? {
      var r := SentRecord(a, run, f, plan.body, plan.manifestHash, NameOf(f) !in w.site.objects);
      AppendRead(w.site.ledger, r);
      SentLedger(a, w, v, f);
      RunSends(a, run, w.site, f, Read(w.site.ledger), w.clock);
      AcceptancesStay(a, w, v);
    } else {
      RunSettles(a, run, w.site, f, reply, Read(w.site.ledger), w.clock);
      assert v.uploads == w.uploads;
      QuietKeeps(a, w, v);
    }
  }

  lemma DiedVisitingKeeps(a: Authority, w: World, f: Found, written: nat)
    requires WellFormed(a) && Inv(a, w) && w.backup.Some? && DistinctNames(f.listing)
    ensures Inv(a, DiedVisiting(a, w, f, written))
  {
    hide Read, WellFormed, LedgerInv, AcceptInv, DrillInv, RunAgreesWith, Decide, Fold, Grows, Write;
    var run := w.backup.value;
    var v := DiedVisiting(a, w, f, written);
    var plan := Decide(a, run, f);
    DrillsStay(a, w, v);
    if plan.Send? {
      var r := SentRecord(a, run, f, plan.body, plan.manifestHash, NameOf(f) !in w.site.objects);
      WriteReads(w.site.ledger, Attempt(r, written));
      SentLedger(a, w, v, f);
      AcceptancesStay(a, w, v);
    } else {
      QuietKeeps(a, w, v);
    }
  }

  // ---- Receipt events ------------------------------------------------------

  lemma AcceptJudged(acc: Acceptance, line: string)
    requires Judge(acc, line).Accept?
    ensures var n := Judge(acc, line).name; n in acc.cache && Statement(line) == Some((n, acc.cache[n].tarSha))
  {
    hide Statement, IsBlank;
  }

  /** A verification of content the file names upgrades that entry, and nothing else changes. */
  lemma VerifiedFolds(g: Reading, cache: map<string, Entry>, name: string, now: nat)
    requires UpToUpgrades(cache, g.entries) && name in cache
    ensures Fold(g, VerifiedRecord(name, cache[name], now)) ==
            g.(entries := g.entries[name := g.entries[name].(state := RestoreVerified)])
  {
  }

  /** Upgrading an entry to which a drill answers keeps every entry founded. */
  lemma FoundedVerified(a: Authority, w: World, entries: map<string, Entry>, name: string)
    requires Founded(a, w, entries) && name in entries && Replayed(a, w.replays, name, entries[name].tarSha)
    ensures Founded(a, w, entries[name := entries[name].(state := RestoreVerified)])
  {
    hide Replayed;
  }

  lemma RunUpgrades(run: Run, g: Reading, clock: nat, name: string)
    requires RunAgreesWith(run, g, clock) && name in g.entries
    ensures RunAgreesWith(run, g.(entries := g.entries[name := g.entries[name].(state := RestoreVerified)]), clock)
  {
    hide WindowAgrees, GoodConfig;
  }

  /** The ledger after a receipt line was accepted, whether its ledger line survived or not. */
  lemma VerifiedLedger(a: Authority, w: World, v: World, c: Accepting)
    requires LedgerInv(a, w) && BackupInv(w) && AcceptingAgrees(a, c, Read(w.site.ledger), w.replays)
    requires c.lines != [] && Judge(c.acceptance, c.lines[0]).Accept?
    requires v.replays == w.replays && v.uploads == w.uploads && v.backup == w.backup && v.clock == w.clock
    requires var name := Judge(c.acceptance, c.lines[0]).name;
      || Read(v.site.ledger) == Read(w.site.ledger)
      || Read(v.site.ledger) == Fold(Read(w.site.ledger), VerifiedRecord(name, c.acceptance.cache[name], c.now))
    ensures LedgerInv(a, v) && BackupInv(v) && Grows(Read(w.site.ledger), Read(v.site.ledger))
  {
    hide Read, Fold, UploadGood, ReplayGood, Judge, Statement, RunAgreesWith, VerifiedRecord, Founded, Replayed;
    var g, name := Read(w.site.ledger), Judge(c.acceptance, c.lines[0]).name;
    AcceptJudged(c.acceptance, c.lines[0]);
    VerifiedFolds(g, c.acceptance.cache, name, c.now);
    SameGrows(g);
    FoundedGrows(a, w, v, g.entries);
    FoundedVerified(a, v, g.entries, name);
    if w.backup.Some? {
      RunUpgrades(w.backup.value, g, w.clock, name);
    }
  }

  lemma AcceptedAgrees(a: Authority, c: Accepting, ledger: string, replays: set<Replay>)
    requires AcceptingAgrees(a, c, Read(ledger), replays) && c.lines != []
    ensures var (acc, after) := AcceptLine(c.acceptance, ledger, c.lines[0], c.now);
      AcceptingAgrees(a, Accepting(acc, c.now, c.lines[1..]), Read(after), replays)
  {
    hide Read, Fold, AppendText, Judge, Statement, VerifiedRecord, Replayed;
    var verdict := Judge(c.acceptance, c.lines[0]);
    if verdict.Accept? {
      AcceptJudged(c.acceptance, c.lines[0]);
      AppendRead(ledger, VerifiedRecord(verdict.name, c.acceptance.cache[verdict.name], c.now));
      VerifiedFolds(Read(ledger), c.acceptance.cache, verdict.name, c.now);
    }
  }

  lemma OthersStay(a: Authority, w: World, v: World, k: nat)
    requires AcceptInv(a, w) && v.replays == w.replays && Grows(Read(w.site.ledger), Read(v.site.ledger))
    requires k in v.acceptances && AcceptingAgrees(a, v.acceptances[k], Read(v.site.ledger), v.replays)
    requires forall j | j in v.acceptances && j != k :: j in w.acceptances && v.acceptances[j] == w.acceptances[j]
    ensures AcceptInv(a, v)
  {
    hide Read, AcceptingAgrees, Grows;
    forall j | j in v.acceptances ensures AcceptingAgrees(a, v.acceptances[j], Read(v.site.ledger), v.replays) {
      if j != k {
        AcceptingStays(a, w.acceptances[j], Read(w.site.ledger), Read(v.site.ledger), w.replays, v.replays);
      }
    }
  }

  lemma AcceptedKeeps(a: Authority, w: World, k: nat)
    requires Inv(a, w) && k in w.acceptances && w.acceptances[k].lines != []
    ensures Inv(a, Accepted(w, k))
  {
    hide Read, Fold, AppendText, Judge, LedgerInv, BackupInv, DrillInv, AcceptingAgrees, VerifiedRecord, Grows;
    var c, v := w.acceptances[k], Accepted(w, k);
    var verdict := Judge(c.acceptance, c.lines[0]);
    DrillsStay(a, w, v);
    AcceptedAgrees(a, c, w.site.ledger, w.replays);
    if verdict.Accept? {
      AcceptVerdict(c.acceptance, c.lines[0]);
      AppendRead(w.site.ledger, VerifiedRecord(verdict.name, c.acceptance.cache[verdict.name], c.now));
      VerifiedLedger(a, w, v, c);
    } else {
      SameGrows(Read(w.site.ledger));
      LedgerStays(a, w, v);
      BackupStays(w, v);
    }
    OthersStay(a, w, v, k);
  }

  lemma AcceptVerdict(acc: Acceptance, line: string)
    requires Judge(acc, line).Accept?
    ensures Judge(acc, line).name in acc.cache
  {
    hide Statement, IsBlank;
  }

  lemma BackupStays(w: World, v: World)
    requires BackupInv(w) && v.backup == w.backup && Read(v.site.ledger) == Read(w.site.ledger) && v.clock == w.clock
    ensures BackupInv(v)
  {
    hide Read, RunAgreesWith;
  }

  lemma DiedAcceptingKeeps(a: Authority, w: World, k: nat, written: nat)
    requires Inv(a, w) && k in w.acceptances && w.acceptances[k].lines != []
    ensures Inv(a, DiedAccepting(w, k, written))
  {
    hide Read, Fold, Write, Judge, LedgerInv, BackupInv, DrillInv, AcceptingAgrees, VerifiedRecord, Grows;
    var c, v := w.acceptances[k], DiedAccepting(w, k, written);
    var verdict := Judge(c.acceptance, c.lines[0]);
    if verdict.Accept? {
      AcceptVerdict(c.acceptance, c.lines[0]);
      DrillsStay(a, w, v);
      WriteReads(w.site.ledger, Attempt(VerifiedRecord(verdict.name, c.acceptance.cache[verdict.name], c.now), written));
      VerifiedLedger(a, w, v, c);
      AcceptancesStay(a, w, v);
    } else {
      BackupStays(w, v);
      QuietKeeps(a, w, v);
    }
  }

  /** Every line of a receipt, however much of it arrived, is honest. */
  lemma ReceiptHonest(a: Authority, replays: set<Replay>, text: string, arrived: nat)
    requires IsReceipt(a, replays, text) && arrived <= |text|
    ensures Honest(a, replays, Lines(text[..arrived]))
  {
    hide ReceiptText, Lines, Statement, Replayed;
    var rs, verifiedAt :| text == ReceiptText(rs, verifiedAt) && AllReplayed(a, replays, rs);
    CutReceiptStatesOnly(rs, verifiedAt, arrived);
    var lines := Lines(text[..arrived]);
    forall i | 0 <= i < |lines| && Statement(lines[i]).Some?
      ensures Replayed(a, replays, Statement(lines[i]).value.0, Statement(lines[i]).value.1) {
      assert Stated(rs, Statement(lines[i]).value.0, Statement(lines[i]).value.1);
    }
  }

  lemma StartedAccepting(a: Authority, w: World, receipt: string, arrived: nat)
    requires Inv(a, w) && receipt in w.receipts && arrived <= |receipt|
    ensures AcceptingAgrees(a, Accepting(AcceptStarted(w.site.ledger), w.clock, Lines(receipt[..arrived])),
                            Read(w.site.ledger), w.replays)
  {
    hide Read, Lines, BackupInv, AcceptInv, Honest, HistoryGood, Founded, AllReplayed, IsReceipt;
    ReceiptHonest(a, w.replays, receipt, arrived);
  }

  lemma StartAcceptKeeps(a: Authority, w: World, k: nat, receipt: string, arrived: nat)
    requires Inv(a, w) && Enabled(w, StartAccept(k, receipt, arrived))
    ensures Inv(a, Apply(a, w, StartAccept(k, receipt, arrived)))
  {
    hide Read, Lines, LedgerInv, BackupInv, DrillInv, Honest, Grows, AcceptingAgrees, AcceptInv;
    var v := Apply(a, w, StartAccept(k, receipt, arrived));
    StartedAccepting(a, w, receipt, arrived);
    SameGrows(Read(w.site.ledger));
    LedgerStays(a, w, v);
    BackupStays(w, v);
    DrillsStay(a, w, v);
    OthersStay(a, w, v, k);
  }

  // ---- Restore events ------------------------------------------------------

  /** What a drill verifies is a replay of what it downloaded. */
  lemma DrillReplays(a: Authority, objects: map<string, Bytes>, d: Drilling, name: string, download: Restore.Download)
    requires Restore.Drill(a, objects, d.ledgerCopy, d.tree, name, download).0.Verified?
    ensures var (outcome, tree) := Restore.Drill(a, objects, d.ledgerCopy, d.tree, name, download);
      var rs := ReplayOf(objects, name, tree);
      Replayed(a, rs, outcome.restored.name, outcome.restored.tarSha) && forall r | r in rs :: ReplayGood(r)
  {
    hide Extract, ObjectName.Parse, Restore.Drill, CanonicalPathError;
    Restore.DrillProves(a, objects, d.ledgerCopy, d.tree, name, download);
    var (outcome, tree) := Restore.Drill(a, objects, d.ledgerCopy, d.tree, name, download);
    var (rootLabel, relative) := ObjectName.Parse(name).value;
    var r := Replay(name, objects[name], tree[Restore.TargetOf(rootLabel, relative)]);
    assert r in ReplayOf(objects, name, tree);
  }

  lemma DrilledKeeps(a: Authority, w: World, k: nat, name: string, download: Restore.Download)
    requires Inv(a, w) && k in w.drills
    ensures Inv(a, Drilled(a, w, k, name, download))
  {
    hide Read, Restore.Drill, LedgerInv, BackupInv, AcceptInv, DrillInv, ReplayOf, Replayed, IsReceipt, ReplayGood, Grows;
    var d, v := w.drills[k], Drilled(a, w, k, name, download);
    var (outcome, tree) := Restore.Drill(a, w.site.objects, d.ledgerCopy, d.tree, name, download);
    SameGrows(Read(w.site.ledger));
    BackupStays(w, v);
    AcceptancesStay(a, w, v);
    match outcome
    case Verified(restored) =>
      DrillReplays(a, w.site.objects, d, name, download);
      DrillReplayed(a, w, v, k, restored, ReplayOf(w.site.objects, name, tree));
    case NotVerified(_) =>
      LedgerStays(a, w, v);
      DrillTurned(a, w, v, k);
    case Raised =>
      LedgerStays(a, w, v);
      DrillsStay(a, w, v);
  }

  lemma DrillReplayed(a: Authority, w: World, v: World, k: nat, r: Restored, rs: set<Replay>)
    requires LedgerInv(a, w) && DrillInv(a, w) && k in w.drills && k in v.drills
    requires v.site == w.site && v.uploads == w.uploads && v.receipts == w.receipts && v.replays == w.replays + rs
    requires Replayed(a, rs, r.name, r.tarSha) && forall x | x in rs :: ReplayGood(x)
    requires v.drills.Keys == w.drills.Keys && v.drills[k].verified == w.drills[k].verified + [r]
    requires forall j | j in w.drills && j != k :: v.drills[j] == w.drills[j]
    ensures LedgerInv(a, v) && DrillInv(a, v)
  {
    hide Read, ReplayGood, UploadGood;
    FoundedGrows(a, w, v, Read(w.site.ledger).entries);
    forall j | j in v.drills ensures AllReplayed(a, v.replays, v.drills[j].verified) {
      ReplayedGrows(a, w.replays, v.replays, w.drills[j].verified);
    }
    forall t | t in v.receipts ensures IsReceipt(a, v.replays, t) {
      ReceiptStays(a, w.replays, v.replays, t);
    }
  }

  lemma DrillTurned(a: Authority, w: World, v: World, k: nat)
    requires DrillInv(a, w) && k in w.drills && v.replays == w.replays && v.receipts == w.receipts
    requires v.drills.Keys == w.drills.Keys && v.drills[k].verified == w.drills[k].verified
    requires forall j | j in w.drills && j != k :: v.drills[j] == w.drills[j]
    ensures DrillInv(a, v)
  {
    hide AllReplayed, IsReceipt;
  }

  lemma ReceiptWritten(a: Authority, w: World, k: nat, verifiedAt: int)
    requires DrillInv(a, w) && k in w.drills
    ensures DrillInv(a, DrillEnded(w, k, verifiedAt))
  {
    hide AllReplayed, ReceiptText;
    var text := ReceiptText(w.drills[k].verified, verifiedAt);
    assert IsReceipt(a, w.replays, text);
    hide IsReceipt;
  }

  lemma EndDrillKeeps(a: Authority, w: World, k: nat, verifiedAt: int)
    requires Inv(a, w) && k in w.drills
    ensures Inv(a, DrillEnded(w, k, verifiedAt))
  {
    hide Read, LedgerInv, BackupInv, AcceptInv, DrillInv, ReceiptText, Grows;
    var v := DrillEnded(w, k, verifiedAt);
    ReceiptWritten(a, w, k, verifiedAt);
    SameGrows(Read(w.site.ledger));
    LedgerStays(a, w, v);
    BackupStays(w, v);
    AcceptancesStay(a, w, v);
  }

  lemma StartDrillKeeps(a: Authority, w: World, k: nat, ledgerCopy: Option<map<string, Entry>>)
    requires Inv(a, w) && k !in w.drills
    ensures Inv(a, Apply(a, w, StartDrill(k, ledgerCopy)))
  {
    var v := Apply(a, w, StartDrill(k, ledgerCopy));
    hide Read, LedgerInv, BackupInv, AcceptInv, IsReceipt, Grows;
    SameGrows(Read(w.site.ledger));
    LedgerStays(a, w, v);
    BackupStays(w, v);
    AcceptancesStay(a, w, v);
  }

  // ---- Every history -------------------------------------------------------

  lemma StartKeeps(a: Authority, w: World, config: Config)
    requires Inv(a, w) && GoodConfig(config)
    ensures Inv(a, w.(backup := Some(Started(config, w.clock, w.site.ledger))))
  {
    hide Read, AcceptInv, DrillInv;
    var v := w.(backup := Some(Started(config, w.clock, w.site.ledger)));
    StartedAgrees(config, w.clock, w.site);
    assert BackupInv(v);
    hide LedgerInv, BackupInv;
    QuietKeeps(a, w, v);
  }

  lemma TickKeeps(a: Authority, w: World, now: nat)
    requires Inv(a, w) && w.clock <= now
    ensures Inv(a, w.(clock := now))
  {
    hide Read, LedgerInv, AcceptInv, DrillInv, WindowAgrees, GoodConfig;
    assert BackupInv(w.(clock := now));
    hide BackupInv;
    QuietKeeps(a, w, w.(clock := now));
  }

  lemma BlankLineKeeps(a: Authority, w: World)
    requires Inv(a, w)
    ensures Inv(a, w.(site := w.site.(ledger := w.site.ledger + "\n")))
  {
    hide Read, LedgerInv, BackupInv, AcceptInv, DrillInv;
    BlankLineReads(w.site.ledger);
    var v := w.(site := w.site.(ledger := w.site.ledger + "\n"));
    BackupStays(w, v);
    QuietKeeps(a, w, v);
  }

  lemma OtherKeeps(a: Authority, w: World, e: Event)
    requires Inv(a, w) && Enabled(w, e) && (e.EndBackup? || e.EndAccept? || e.BucketChanges?)
    ensures Inv(a, Apply(a, w, e))
  {
    hide Read, LedgerInv, AcceptInv, DrillInv, RunAgreesWith;
    var v := Apply(a, w, e);
    assert BackupInv(v);
    hide BackupInv;
    QuietKeeps(a, w, v);
  }

  lemma NextKeeps(a: Authority, w: World, e: Event)
    requires WellFormed(a) && Inv(a, w)
    ensures Inv(a, Next(a, w, e))
  {
    hide Inv, WellFormed, Visited, DiedVisiting, Accepted, DiedAccepting, Drilled, Started, Read, ReceiptText, Lines;
    if Enabled(w, e) {
      match e
      case Tick(now) => TickKeeps(a, w, now);
      case StartBackup(config) => StartKeeps(a, w, config);
      case VisitNext(f, reply) => VisitedKeeps(a, w, f, reply);
      case DieVisiting(f, written) => DiedVisitingKeeps(a, w, f, written);
      case StartAccept(k, receipt, arrived) => StartAcceptKeeps(a, w, k, receipt, arrived);
      case AcceptNext(k) => AcceptedKeeps(a, w, k);
      case DieAccepting(k, written) => DiedAcceptingKeeps(a, w, k, written);
      case StartDrill(k, ledgerCopy) => StartDrillKeeps(a, w, k, ledgerCopy);
      case DrillNext(k, name, download) => DrilledKeeps(a, w, k, name, download);
      case EndDrill(k, verifiedAt) => EndDrillKeeps(a, w, k, verifiedAt);
      case BlankLine => BlankLineKeeps(a, w);
      case _ => OtherKeeps(a, w, e);
    }
  }

  lemma StartHolds(a: Authority)
    ensures Inv(a, START) && Read("") == NOTHING
  {
    EmptyLines();
  }

  /**
   * History safety, for every interleaving: each entry stands for an answered PUT of bytes
   * with its recorded digest and size; it says UPLOADED only if that PUT created the object,
   * and RESTORE_VERIFIED only if downloaded bytes with that digest were replayed. The ledger
   * never disagrees with itself.
   */
  lemma {:induction false} HistorySafe(a: Authority, events: seq<Event>)
    requires WellFormed(a)
    ensures Inv(a, History(a, events))
  {
    hide Inv, WellFormed, Next;
    if events == [] {
      StartHolds(a);
    } else {
      HistorySafe(a, events[..|events| - 1]);
      NextKeeps(a, History(a, events[..|events| - 1]), events[|events| - 1]);
    }
  }

  /**
   * Cache agreement beside other commands: a running backup knows exactly the names of the
   * file, and of each what the file says but for upgrades to RESTORE_VERIFIED that came in
   * since; an acceptance knows no name the file does not, and of each the same.
   */
  lemma {:induction false} CachesAgree(a: Authority, events: seq<Event>)
    requires WellFormed(a)
    ensures var w := History(a, events);
      var entries := Read(w.site.ledger).entries;
      && (w.backup.Some? ==> w.backup.value.cache.Keys == entries.Keys && UpToUpgrades(w.backup.value.cache, entries))
      && (forall k | k in w.acceptances :: UpToUpgrades(w.acceptances[k].acceptance.cache, entries))
  {
    HistorySafe(a, events);
    hide Read, History, WellFormed, LedgerInv, DrillInv, UpToUpgrades;
    var w := History(a, events);
    forall k | k in w.acceptances ensures UpToUpgrades(w.acceptances[k].acceptance.cache, Read(w.site.ledger).entries) {
      assert AcceptingAgrees(a, w.acceptances[k], Read(w.site.ledger), w.replays);
    }
  }

  /**
   * End to end: when the ledger says RESTORE_VERIFIED and the digest separates byte strings,
   * the bytes that were downloaded are the bytes that were packed, and they hold exactly the
   * five files the local partition had when it was packed.
   */
  lemma {:induction false} RestoreIsTheUpload(a: Authority, events: seq<Event>, n: string)
    requires WellFormed(a) && Injective(a.sha)
    requires var entries := Read(History(a, events).site.ledger).entries; n in entries && entries[n].state.RestoreVerified?
    ensures var w := History(a, events);
      exists u, r :: u in w.uploads && r in w.replays && u.name == n && r.name == n
                     && r.body == u.body && r.files == u.files && u.files.Keys == PARTITION_FILES
                     && Extract(r.body, u.relative) == Ok(u.files)
  {
    HistorySafe(a, events);
    hide Read, History, WellFormed, Extract, ObjectName.Parse, BackupInv, AcceptInv, DrillInv;
    var w := History(a, events);
    var e := Read(w.site.ledger).entries[n];
    assert WasSent(a, w.uploads, n, e) && WasReplayed(a, w.replays, n, e);
    var u :| u in w.uploads && u.name == n && a.sha(u.body) == e.tarSha;
    var r :| r in w.replays && r.name == n && a.sha(r.body) == e.tarSha;
    assert UploadGood(u) && ReplayGood(r);
  }
}
