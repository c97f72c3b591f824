/**
 * What the off-site backup keeps between any two moments of its history: nothing on record
 * is taken back, and the bytes on record inside the window fit the budget.
 */
module OffsiteHistory {
  import opened Wrappers
  import opened Ledger
  import opened CaptureArchive
  import opened Backup
  import opened BackupRun
  import opened BackupFacts
  import opened Receipts
  import opened OffsiteSystem
  import Restore

  // ---- Nothing is ever taken back ------------------------------------------

  lemma FoldOneGrows(g: Reading, r: Record)
    ensures Grows(g, Fold(g, r))
  {
  }

  lemma GrowsTransitive(g: Reading, h: Reading, i: Reading)
    requires Grows(g, h) && Grows(h, i)
    ensures Grows(g, i)
  {
  }

  lemma WriteGrows(ledger: string, r: Record, written: nat)
    ensures Grows(Read(ledger), Read(Write(ledger, Attempt(r, written))))
  {
    hide Read, Fold, Write;
    WriteReads(ledger, Attempt(r, written));
    FoldOneGrows(Read(ledger), r);
    SameGrows(Read(ledger));
  }

  lemma AppendGrows(ledger: string, r: Record)
    ensures Grows(Read(ledger), Read(ledger + AppendText(ledger, r)))
  {
    hide Read, Fold, AppendText;
    AppendRead(ledger, r);
    FoldOneGrows(Read(ledger), r);
  }

  lemma NextGrows(a: Authority, w: World, e: Event)
    ensures Grows(Read(w.site.ledger), Read(Next(a, w, e).site.ledger))
  {
    hide Read, Write, AppendText, Decide, Judge, Drilled, Started, Grows, VerifiedRecord, PutNew, ReceiptText, Lines;
    SameGrows(Read(w.site.ledger));
    if Enabled(w, e) {
      match e
      case VisitNext(f, reply) =>
        var run, plan := w.backup.value, Decide(a, w.backup.value, f);
        if plan.Send? {
          AppendGrows(w.site.ledger, SentRecord(a, run, f, plan.body, plan.manifestHash, NameOf(f) !in w.site.objects));
        }
      case DieVisiting(f, written) =>
        var run, plan := w.backup.value, Decide(a, w.backup.value, f);
        if plan.Send? {
          WriteGrows(w.site.ledger,
                     SentRecord(a, run, f, plan.body, plan.manifestHash, NameOf(f) !in w.site.objects), written);
        }
      case AcceptNext(k) =>
        var c := w.acceptances[k];
        if Judge(c.acceptance, c.lines[0]).Accept? {
          AcceptVerdict(c.acceptance, c.lines[0]);
          var name := Judge(c.acceptance, c.lines[0]).name;
          AppendGrows(w.site.ledger, VerifiedRecord(name, c.acceptance.cache[name], c.now));
        }
      case DieAccepting(k, written) =>
        var c := w.acceptances[k];
        if Judge(c.acceptance, c.lines[0]).Accept? {
          AcceptVerdict(c.acceptance, c.lines[0]);
          var name := Judge(c.acceptance, c.lines[0]).name;
          WriteGrows(w.site.ledger, VerifiedRecord(name, c.acceptance.cache[name], c.now), written);
        }
      case DrillNext(k, name, download) =>
        DrillLeavesSite(a, w, k, name, download);
      case BlankLine =>
        BlankLineReads(w.site.ledger);
      case _ =>
    }
  }

  lemma DrillLeavesSite(a: Authority, w: World, k: nat, name: string, download: Restore.Download)
    requires k in w.drills
    ensures Drilled(a, w, k, name, download).site == w.site
  {
    hide Restore.Drill, ReplayOf;
  }

  /**
   * Between any two moments of any history no entry is lost, none changes what was sent
   * under its name, and the only change of state is to RESTORE_VERIFIED: an unverified
   * object never becomes an uploaded one.
   */
  lemma {:induction false} HistoryGrows(a: Authority, events: seq<Event>, k: nat)
    requires k <= |events|
    ensures Grows(Read(History(a, events[..k]).site.ledger), Read(History(a, events).site.ledger))
    decreases |events|
  {
    hide Read, Next;
    if k == |events| {
      assert events[..k] == events;
    } else {
      var front := events[..|events| - 1];
      assert front[..k] == events[..k];
      HistoryGrows(a, front, k);
      NextGrows(a, History(a, front), events[|events| - 1]);
      GrowsTransitive(Read(History(a, events[..k]).site.ledger), Read(History(a, front).site.ledger),
                      Read(History(a, events).site.ledger));
    }
  }

  // ---- The sliding budget --------------------------------------------------

  /** Every run of the history is given this budget and this window. */
  ghost predicate Limited(e: Event, budget: int, days: int) {
    e.StartBackup? ==> e.config.budgetBytes == budget && e.config.windowDays == days
  }

  ghost predicate RunWithin(run: Run, budget: int, days: int) {
    run.config.budgetBytes == budget && run.config.windowDays == days && WithinBudget(run)
  }

  ghost predicate LedgerWithin(w: World, budget: int, days: int) {
    WindowSum(Read(w.site.ledger).entries, WindowStart(days, w.clock)) <= budget
  }

  ghost predicate Within(w: World, budget: int, days: int) {
    LedgerWithin(w, budget, days) && (w.backup.Some? ==> RunWithin(w.backup.value, budget, days))
  }

  /** A running backup's total bounds the window of any later moment. */
  lemma RunBounds(run: Run, g: Reading, clock: nat, budget: int, days: int)
    requires RunAgreesWith(run, g, clock) && RunWithin(run, budget, days)
    ensures WindowSum(g.entries, WindowStart(days, clock)) <= budget
  {
    WindowSumMonotone(run.cache, WindowStart(days, run.now), WindowStart(days, clock));
    WindowSumSame(run.cache, g.entries, WindowStart(days, clock));
  }

  lemma SentWithin(a: Authority, w: World, f: Found, budget: int, days: int)
    requires BackupInv(w) && w.backup.Some? && RunWithin(w.backup.value, budget, days)
    requires Decide(a, w.backup.value, f).Send?
    ensures var run, plan := w.backup.value, Decide(a, w.backup.value, f);
      var r := SentRecord(a, run, f, plan.body, plan.manifestHash, NameOf(f) !in w.site.objects);
      && RunWithin(Visit(a, run, w.site, f, Answered).0, budget, days)
      && WindowSum(Fold(Read(w.site.ledger), r).entries, WindowStart(days, w.clock)) <= budget
  {
    hide Read, Decide, Fold, AppendText, PutNew, WindowAgrees, UpToUpgrades;
    var run, plan := w.backup.value, Decide(a, w.backup.value, f);
    var r := SentRecord(a, run, f, plan.body, plan.manifestHash, NameOf(f) !in w.site.objects);
    VisitWindow(a, run, w.site, f, Answered);
    assert RunWithin(Visit(a, run, w.site, f, Answered).0, budget, days);
    RunSends(a, run, w.site, f, Read(w.site.ledger), w.clock);
    hide RunAgreesWith, RunWithin, Visit;
    RunBounds(Visit(a, run, w.site, f, Answered).0, Fold(Read(w.site.ledger), r), w.clock, budget, days);
  }

  lemma VisitedWithin(a: Authority, w: World, f: Found, reply: Reply, budget: int, days: int)
    requires BackupInv(w) && Within(w, budget, days) && w.backup.Some?
    ensures Within(Visited(a, w, f, reply), budget, days)
  {
    hide Read, Decide, Fold, AppendText, PutNew, RunAgreesWith, UploadOf, WindowSum;
    var run, plan := w.backup.value, Decide(a, w.backup.value, f);
    if plan.Send? && reply.Answered? {
      var r := SentRecord(a, run, f, plan.body, plan.manifestHash, NameOf(f) !in w.site.objects);
      SentWithin(a, w, f, budget, days);
      AppendRead(w.site.ledger, r);
    }
  }

  /** A line that survives a crash is the line the run would have counted. */
  lemma DiedVisitingWithin(a: Authority, w: World, f: Found, written: nat, budget: int, days: int)
    requires BackupInv(w) && Within(w, budget, days) && w.backup.Some?
    ensures Within(DiedVisiting(a, w, f, written), budget, days)
  {
    hide Read, Decide, Fold, Write, PutNew, RunAgreesWith, UploadOf, WindowSum, Visit;
    var run, plan := w.backup.value, Decide(a, w.backup.value, f);
    if plan.Send? {
      var r := SentRecord(a, run, f, plan.body, plan.manifestHash, NameOf(f) !in w.site.objects);
      SentWithin(a, w, f, budget, days);
      WriteReads(w.site.ledger, Attempt(r, written));
    }
  }

  lemma VerifiedWithin(w: World, c: Accepting, name: string, budget: int, days: int)
    requires LedgerWithin(w, budget, days) && UpToUpgrades(c.acceptance.cache, Read(w.site.ledger).entries)
    requires name in c.acceptance.cache
    ensures var h := Fold(Read(w.site.ledger), VerifiedRecord(name, c.acceptance.cache[name], c.now));
      WindowSum(h.entries, WindowStart(days, w.clock)) <= budget
  {
    hide Read, Fold, VerifiedRecord;
    var g := Read(w.site.ledger);
    VerifiedFolds(g, c.acceptance.cache, name, c.now);
    WindowSumReplace(g.entries, WindowStart(days, w.clock), name, g.entries[name].(state := RestoreVerified));
  }

  lemma AcceptedWithin(a: Authority, w: World, k: nat, written: nat, budget: int, days: int)
    requires AcceptInv(a, w) && Within(w, budget, days) && k in w.acceptances && w.acceptances[k].lines != []
    ensures Within(Accepted(w, k), budget, days) && Within(DiedAccepting(w, k, written), budget, days)
  {
    var c := w.acceptances[k];
    assert UpToUpgrades(c.acceptance.cache, Read(w.site.ledger).entries) by {
      hide Read, UpToUpgrades, Honest;
      assert AcceptingAgrees(a, c, Read(w.site.ledger), w.replays);
    }
    hide Read, Judge, Fold, AppendText, Write, VerifiedRecord, WindowSum, AcceptingAgrees, UpToUpgrades, RunWithin;
    if Judge(c.acceptance, c.lines[0]).Accept? {
      AcceptVerdict(c.acceptance, c.lines[0]);
      var name := Judge(c.acceptance, c.lines[0]).name;
      var r := VerifiedRecord(name, c.acceptance.cache[name], c.now);
      VerifiedWithin(w, c, name, budget, days);
      AppendRead(w.site.ledger, r);
      WriteReads(w.site.ledger, Attempt(r, written));
    }
  }

  lemma StartedWithin(w: World, config: Config, budget: int, days: int)
    requires Within(w, budget, days) && config.budgetBytes == budget && config.windowDays == days
    ensures Within(w.(backup := Some(Started(config, w.clock, w.site.ledger))), budget, days)
  {
    hide Read;
  }

  lemma TickWithin(a: Authority, w: World, now: nat, budget: int, days: int)
    requires LedgerInv(a, w) && Within(w, budget, days) && w.clock <= now
    ensures Within(w.(clock := now), budget, days)
  {
    hide Read, Founded, HistoryGood;
    WindowSumMonotone(Read(w.site.ledger).entries, WindowStart(days, w.clock), WindowStart(days, now));
  }

  lemma NextWithin(a: Authority, w: World, e: Event, budget: int, days: int)
    requires Inv(a, w) && Within(w, budget, days) && Limited(e, budget, days)
    ensures Within(Next(a, w, e), budget, days)
  {
    hide Read, Visited, DiedVisiting, Accepted, DiedAccepting, Drilled, Started, RunWithin, WindowSum,
         LedgerInv, BackupInv, AcceptInv, DrillInv, ReceiptText, Lines;
    if Enabled(w, e) {
      match e
      case Tick(now) => TickWithin(a, w, now, budget, days);
      case StartBackup(config) => StartedWithin(w, config, budget, days);
      case VisitNext(f, reply) => VisitedWithin(a, w, f, reply, budget, days);
      case DieVisiting(f, written) => DiedVisitingWithin(a, w, f, written, budget, days);
      case AcceptNext(k) => AcceptedWithin(a, w, k, 0, budget, days);
      case DieAccepting(k, written) => AcceptedWithin(a, w, k, written, budget, days);
      case DrillNext(k, name, download) => DrillWithin(a, w, k, name, download, budget, days);
      case BlankLine => BlankLineReads(w.site.ledger);
      case _ =>
    }
  }

  lemma DrillWithin(a: Authority, w: World, k: nat, name: string, download: Restore.Download, budget: int, days: int)
    requires Within(w, budget, days) && k in w.drills
    ensures Within(Drilled(a, w, k, name, download), budget, days)
  {
    hide Read, Restore.Drill, ReplayOf, RunWithin, WindowSum;
  }

  /**
   * The sliding budget, over every history that starts from an empty ledger and gives its
   * runs one budget and one window: at every moment the bytes on record inside the window
   * fit the budget, whatever crashed, was accepted beside a run, or happened to the bucket.
   */
  lemma {:induction false} BudgetHolds(a: Authority, events: seq<Event>, budget: nat, days: int)
    requires WellFormed(a) && forall i | 0 <= i < |events| :: Limited(events[i], budget, days)
    ensures Within(History(a, events), budget, days)
  {
    hide Inv, WellFormed, Next, Read;
    if events == [] {
      StartHolds(a);
    } else {
      var front := events[..|events| - 1];
      BudgetHolds(a, front, budget, days);
      HistorySafe(a, front);
      NextWithin(a, History(a, front), events[|events| - 1], budget, days);
    }
  }
}
