/**
 * What the off-site protocol achieves, not only what it never does: an answered PUT is on
 * record in these words, and an object that is sent, left as it is, drilled and accepted
 * becomes RESTORE_VERIFIED, whatever else happens in between.
 */
module OffsiteReturns {
  import opened Wrappers
  import opened Framing
  import opened Ledger
  import opened PartitionTar
  import opened CaptureArchive
  import opened Backup
  import opened BackupRun
  import opened BackupFacts
  import opened BackupTable
  import opened Receipts
  import opened OffsiteSystem
  import OffsiteHistory
  import Restore
  import RestoreTable
  import ObjectName

  // ---- What happens after a world ------------------------------------------

  ghost function After(a: Authority, w: World, events: seq<Event>): World {
    if events == [] then w else Next(a, After(a, w, events[..|events| - 1]), events[|events| - 1])
  }

  lemma {:induction false} AfterKeeps(a: Authority, w: World, events: seq<Event>)
    requires WellFormed(a) && Inv(a, w)
    ensures Inv(a, After(a, w, events)) && Grows(Read(w.site.ledger), Read(After(a, w, events).site.ledger))
  {
    hide Inv, WellFormed, Next, Read, Grows;
    if events == [] {
      SameGrows(Read(w.site.ledger));
    } else {
      var front := events[..|events| - 1];
      AfterKeeps(a, w, front);
      NextKeeps(a, After(a, w, front), events[|events| - 1]);
      OffsiteHistory.NextGrows(a, After(a, w, front), events[|events| - 1]);
      OffsiteHistory.GrowsTransitive(Read(w.site.ledger), Read(After(a, w, front).site.ledger),
                                     Read(After(a, w, events).site.ledger));
    }
  }

  lemma {:induction false} AfterFirst(a: Authority, w: World, e: Event, more: seq<Event>)
    ensures After(a, w, [e] + more) == After(a, Next(a, w, e), more)
    decreases |more|
  {
    hide Next;
    if more == [] {
      assert [e] + more == [e] && [e][..0] == [];
      assert After(a, w, []) == w;
    } else {
      var front := more[..|more| - 1];
      assert ([e] + more)[..|more|] == [e] + front;
      AfterFirst(a, w, e, front);
    }
  }

  // ---- An answered PUT -----------------------------------------------------

  /** The running backup sends this partition now: by the table, on the ledger file as it is. */
  ghost predicate SendsNow(a: Authority, w: World, f: Found) {
    && w.backup.Some? && DistinctNames(f.listing)
    && IsSent(a, w.backup.value.config, w.backup.value.now, Read(w.site.ledger), f, SpentBy(w.backup.value))
  }

  function BodyOf(f: Found): Bytes
    requires Pack(f.listing, f.relative).Ok?
  {
    Pack(f.listing, f.relative).value
  }

  lemma SentHasManifest(a: Authority, f: Found)
    requires Misplacement(a, f).None?
    ensures ManifestHash(a, f).Some?
  {
    hide FilesIn, NameOf;
  }

  /**
   * In any history, beside whatever else is at work: after an answered PUT that created the
   * object the file reads UPLOADED for it, and after one that met an existing object it reads
   * REMOTE_EXISTS_UNVERIFIED; with the manifest's hash, the digest and size of the packed bytes
   * and the second of the run, and no other entry changed.
   */
  lemma {:induction false} PutIsOnRecord(a: Authority, events: seq<Event>, f: Found)
    requires WellFormed(a) && SendsNow(a, History(a, events), f)
    ensures var w := History(a, events); var v := Next(a, w, VisitNext(f, Answered));
      var n := NameOf(f);
      && ManifestHash(a, f).Some? && n !in Read(w.site.ledger).entries
      && Read(v.site.ledger).entries == Read(w.site.ledger).entries[n :=
           Entry(ManifestHash(a, f).value, a.sha(BodyOf(f)), |BodyOf(f)|, w.backup.value.now / 1_000_000_000,
                 if n in w.site.objects then RemoteExistsUnverified else Uploaded)]
      && v.site.objects == (if n in w.site.objects then w.site.objects else w.site.objects[n := BodyOf(f)])
      && v.backup.Some?
  {
    HistorySafe(a, events);
    PutRecorded(a, History(a, events), f);
  }

  lemma PutRecorded(a: Authority, w: World, f: Found)
    requires Inv(a, w) && SendsNow(a, w, f)
    ensures var v := Next(a, w, VisitNext(f, Answered));
      var n := NameOf(f);
      && ManifestHash(a, f).Some? && n !in Read(w.site.ledger).entries
      && Read(v.site.ledger).entries == Read(w.site.ledger).entries[n :=
           Entry(ManifestHash(a, f).value, a.sha(BodyOf(f)), |BodyOf(f)|, w.backup.value.now / 1_000_000_000,
                 if n in w.site.objects then RemoteExistsUnverified else Uploaded)]
      && v.site.objects == (if n in w.site.objects then w.site.objects else w.site.objects[n := BodyOf(f)])
      && v.backup.Some?
  {
    hide Read, Visit, Pack, Holds, FilesIn, NameOf, ManifestHash, Misplacement, Count, WindowAgrees, AcceptInv, DrillInv,
         HistoryGood, Founded, UpToUpgrades, UploadOf;
    var run := w.backup.value;
    SentHasManifest(a, f);
    PutReads(a, run, w.site, f);
  }

  // ---- What other events leave alone ---------------------------------------

  predicate SparesDrill(e: Event, k: nat) {
    !(e.DrillNext? && e.k == k) && !(e.EndDrill? && e.k == k)
  }

  predicate SparesAcceptance(e: Event, k: nat) {
    !(e.AcceptNext? && e.k == k) && !(e.DieAccepting? && e.k == k) && !(e.EndAccept? && e.k == k)
  }

  lemma NextSpares(a: Authority, w: World, e: Event, k: nat)
    ensures var v := Next(a, w, e);
      && (k in w.drills && SparesDrill(e, k) ==> k in v.drills && v.drills[k] == w.drills[k])
      && (k in w.acceptances && SparesAcceptance(e, k) ==> k in v.acceptances && v.acceptances[k] == w.acceptances[k])
      && w.receipts <= v.receipts
  {
    hide Read, Decide, Visit, Judge, Restore.Drill, ReplayOf, UploadOf, AcceptLine, Write, PutNew, ReceiptText, Lines,
         Started, AcceptStarted, GoodConfig, DistinctNames;
  }

  lemma {:induction false} AfterSpares(a: Authority, w: World, events: seq<Event>, k: nat)
    ensures var v := After(a, w, events);
      && (k in w.drills && (forall e | e in events :: SparesDrill(e, k)) ==> k in v.drills && v.drills[k] == w.drills[k])
      && (k in w.acceptances && (forall e | e in events :: SparesAcceptance(e, k)) ==>
            k in v.acceptances && v.acceptances[k] == w.acceptances[k])
      && w.receipts <= v.receipts
  {
    hide Next, SparesDrill, SparesAcceptance;
    if events != [] {
      var front := events[..|events| - 1];
      AfterSpares(a, w, front, k);
      assert forall e | e in front :: e in events;
      NextSpares(a, After(a, w, front), events[|events| - 1], k);
    }
  }

  // ---- The way back --------------------------------------------------------

  /** The name is on record with this digest. */
  ghost predicate OnRecord(ledger: string, n: string, hash: string, tarSha: string) {
    var g := Read(ledger);
    n in g.entries && g.entries[n].manifestHash == hash && g.entries[n].tarSha == tarSha
  }

  lemma OnRecordStays(ledger: string, later: string, n: string, hash: string, tarSha: string)
    requires OnRecord(ledger, n, hash, tarSha) && Grows(Read(ledger), Read(later))
    ensures OnRecord(later, n, hash, tarSha)
    ensures Read(ledger).entries[n].state.RestoreVerified? ==> Read(later).entries[n].state.RestoreVerified?
  {
    hide Read;
  }

  lemma {:induction false} ManifestKept(d: Listing)
    ensures MANIFEST in KeptFiles(d) <==> MANIFEST in FilesIn(d)
    ensures MANIFEST in KeptFiles(d) ==> KeptFiles(d)[MANIFEST] == FilesIn(d)[MANIFEST]
  {
    if d != [] {
      ManifestKept(d[..|d| - 1]);
      PartitionFileNames(MANIFEST);
    }
  }

  /** What was packed at its canonical place is restored to its canonical place. */
  lemma RestoredInPlace(a: Authority, f: Found)
    requires WellFormed(a) && Misplacement(a, f).None?
    ensures RestoreTable.IsNamed(NameOf(f)) && ObjectName.Parse(NameOf(f)) == Ok((f.rootLabel, f.relative))
    ensures RestoreTable.Place(a, NameOf(f), KeptFiles(f.listing)).None?
    ensures ManifestOf(a, KeptFiles(f.listing)) == ManifestOf(a, FilesIn(f.listing))
  {
    CanonicalNamesParse(a, FilesIn(f.listing), f.rootLabel, f.relative);
    ManifestKept(f.listing);
    hide FilesIn, KeptFiles, ObjectName.Parse, ObjectName.Relative, WellFormed;
  }

  /** A sent object whose bytes are still there, drilled where its place is free, is verified as what was sent. */
  lemma SentIsVerified(a: Authority, f: Found, objects: map<string, Bytes>, copy: Option<map<string, Entry>>,
                       tree: Restore.Tree)
    requires WellFormed(a) && DistinctNames(f.listing) && Misplacement(a, f).None? && Pack(f.listing, f.relative).Ok?
    requires IsComplete(a, FilesIn(f.listing)) && !Holds(f.listing, RAW_RECORDS)
    requires NameOf(f) in objects && objects[NameOf(f)] == BodyOf(f)
    requires copy.Some? ==> NameOf(f) in copy.value && copy.value[NameOf(f)].tarSha == a.sha(BodyOf(f))
    requires f.rootLabel + "/" + f.relative !in tree
    requires RestoreTable.HasReplayed(a, KeptFiles(f.listing))
    ensures ManifestHash(a, f).Some?
    ensures Restore.Drill(a, objects, copy, tree, NameOf(f), Restore.Arrives).0 ==
            Restore.Verified(Restored(NameOf(f), a.sha(BodyOf(f)), ManifestHash(a, f).value,
                                      a.replay(KeptFiles(f.listing)).records, copy.Some?))
  {
    var files := KeptFiles(f.listing);
    RestoredInPlace(a, f);
    SentHasManifest(a, f);
    CompletePacksWhole(a, f.listing, f.relative);
    ExtractPacked(f.listing, f.relative, []);
    assert BodyOf(f) + [] == BodyOf(f);
    hide FilesIn, KeptFiles, ObjectName.Parse, WellFormed, Extract, Pack, NameOf, ManifestOf, RestoreTable.Place, Restore.Drill;
    RestoreTable.DrillTable(a, objects, copy, tree, NameOf(f), Restore.Arrives,
      Restore.Verified(Restored(NameOf(f), a.sha(BodyOf(f)), ManifestHash(a, f).value,
                                a.replay(files).records, copy.Some?)));
  }

  lemma NotBlank(r: Restored, verifiedAt: int)
    ensures !IsBlank(ReceiptLine(r, verifiedAt))
  {
    hide ReceiptObject;
    assert ReceiptLine(r, verifiedAt)[0] == '{';
  }

  lemma OneLineReceipt(r: Restored, verifiedAt: int)
    ensures Lines(ReceiptText([r], verifiedAt)) == [ReceiptLine(r, verifiedAt)]
    ensures !IsBlank(ReceiptLine(r, verifiedAt))
    ensures Statement(ReceiptLine(r, verifiedAt)) == Some((r.name, r.tarSha))
  {
    hide Lines, ReceiptLine, Statement, IsBlank;
    WholeLineStates([r], verifiedAt);
    StatementOfReceipt(r, verifiedAt);
    NotBlank(r, verifiedAt);
    assert [r][1..] == [] && ReceiptText([], verifiedAt) == "";
    assert ReceiptText([r], verifiedAt) == ReceiptLine(r, verifiedAt) + "\n";
  }

  lemma JudgedSo(acc: Acceptance, line: string, n: string)
    requires !IsBlank(line) && n in acc.cache && acc.inconsistent == {} && Statement(line) == Some((n, acc.cache[n].tarSha))
    ensures Judge(acc, line) == if acc.cache[n].state.RestoreVerified? then Already else Accept(n)
  {
    hide IsBlank, Statement;
  }

  lemma KnownAlike(a: Authority, w: World, k: nat, n: string, hash: string, tarSha: string)
    requires Inv(a, w) && OnRecord(w.site.ledger, n, hash, tarSha) && k in w.acceptances && n in w.acceptances[k].acceptance.cache
    ensures var acc, e := w.acceptances[k].acceptance, Read(w.site.ledger).entries[n];
      && UpToUpgrades(acc.cache, Read(w.site.ledger).entries) && acc.inconsistent == {}
      && acc.cache[n].tarSha == tarSha && acc.cache[n].manifestHash == hash
      && (acc.cache[n].state.RestoreVerified? ==> e.state.RestoreVerified?)
  {
    hide Read, LedgerInv, BackupInv, DrillInv, Honest;
    assert AcceptingAgrees(a, w.acceptances[k], Read(w.site.ledger), w.replays);
  }

  lemma AcceptWrites(a: Authority, w: World, k: nat)
    requires k in w.acceptances && w.acceptances[k].lines != []
    ensures var c := w.acceptances[k];
      Next(a, w, AcceptNext(k)).site.ledger == AcceptLine(c.acceptance, w.site.ledger, c.lines[0], c.now).1
  {
    hide AcceptLine;
  }

  /** A line that states what is on record upgrades it, if that has not happened yet. */
  lemma LineUpgradesFile(acc: Acceptance, ledger: string, line: string, now: nat, n: string, hash: string, tarSha: string)
    requires UpToUpgrades(acc.cache, Read(ledger).entries) && acc.inconsistent == {} && n in acc.cache
    requires acc.cache[n].tarSha == tarSha && OnRecord(ledger, n, hash, tarSha)
    requires acc.cache[n].state.RestoreVerified? ==> Read(ledger).entries[n].state.RestoreVerified?
    requires !IsBlank(line) && Statement(line) == Some((n, tarSha))
    ensures var after := AcceptLine(acc, ledger, line, now).1;
      OnRecord(after, n, hash, tarSha) && Read(after).entries[n].state.RestoreVerified?
  {
    JudgedSo(acc, line, n);
    hide Read, Statement, IsBlank, AppendText, Fold, VerifiedRecord, UpToUpgrades, Judge;
    if !acc.cache[n].state.RestoreVerified? {
      AppendRead(ledger, VerifiedRecord(n, acc.cache[n], now));
      VerifiedFolds(Read(ledger), acc.cache, n, now);
    }
  }

  /** Accepting the one line of such a receipt upgrades the entry it states. */
  lemma LineUpgrades(a: Authority, w: World, k: nat, n: string, hash: string, tarSha: string)
    requires Inv(a, w) && OnRecord(w.site.ledger, n, hash, tarSha)
    requires k in w.acceptances && w.acceptances[k].lines != []
    requires var c := w.acceptances[k];
      && !IsBlank(c.lines[0]) && Statement(c.lines[0]) == Some((n, tarSha)) && n in c.acceptance.cache
    ensures var v := Next(a, w, AcceptNext(k));
      && OnRecord(v.site.ledger, n, hash, tarSha) && Read(v.site.ledger).entries[n].state.RestoreVerified?
  {
    var c := w.acceptances[k];
    KnownAlike(a, w, k, n, hash, tarSha);
    AcceptWrites(a, w, k);
    hide Inv, Next, Read, Statement, IsBlank, AcceptLine, OnRecord, UpToUpgrades;
    LineUpgradesFile(c.acceptance, w.site.ledger, c.lines[0], c.now, n, hash, tarSha);
  }

  /**
   * One object's way back: the drill `k` and the acceptance `j` that bring it, the drill's copy
   * of the ledger, and whatever else happens after each step.
   */
  datatype Journey = Journey(k: nat, j: nat, copy: Option<map<string, Entry>>, verifiedAt: int,
                             afterPut: seq<Event>, afterStart: seq<Event>, afterDrill: seq<Event>, afterReceipt: seq<Event>,
                             beforeAccept: seq<Event>)

  ghost function Sent(a: Authority, w: World, f: Found, way: Journey): World {
    After(a, w, [VisitNext(f, Answered)] + way.afterPut)
  }

  ghost function DrillBegun(a: Authority, w: World, f: Found, way: Journey): World {
    After(a, Sent(a, w, f, way), [StartDrill(way.k, way.copy)] + way.afterStart)
  }

  ghost function ObjectDrilled(a: Authority, w: World, f: Found, way: Journey): World {
    After(a, DrillBegun(a, w, f, way), [DrillNext(way.k, NameOf(f), Restore.Arrives)] + way.afterDrill)
  }

  ghost function ReceiptWritten(a: Authority, w: World, f: Found, way: Journey): World {
    After(a, ObjectDrilled(a, w, f, way), [EndDrill(way.k, way.verifiedAt)] + way.afterReceipt)
  }

  /** The receipt of a drill that verified this object alone. */
  function ReceiptFor(a: Authority, f: Found, way: Journey): string
    requires Pack(f.listing, f.relative).Ok? && ManifestHash(a, f).Some? && a.replay(KeptFiles(f.listing)).ReplaysWhole?
  {
    ReceiptText([Restored(NameOf(f), a.sha(BodyOf(f)), ManifestHash(a, f).value,
                          a.replay(KeptFiles(f.listing)).records, way.copy.Some?)], way.verifiedAt)
  }

  ghost function AcceptBegun(a: Authority, w: World, f: Found, way: Journey): World
    requires Pack(f.listing, f.relative).Ok? && ManifestHash(a, f).Some? && a.replay(KeptFiles(f.listing)).ReplaysWhole?
  {
    var receipt := ReceiptFor(a, f, way);
    After(a, ReceiptWritten(a, w, f, way), [StartAccept(way.j, receipt, |receipt|)] + way.beforeAccept)
  }

  ghost function Returned(a: Authority, w: World, f: Found, way: Journey): World
    requires Pack(f.listing, f.relative).Ok? && ManifestHash(a, f).Some? && a.replay(KeptFiles(f.listing)).ReplaysWhole?
  {
    Next(a, AcceptBegun(a, w, f, way), AcceptNext(way.j))
  }

  /**
   * The numbers are free when they are taken, the copy of the ledger says what the file says,
   * the object is in the bucket with the bytes that were sent when it is downloaded, and
   * nobody else turns this drill or this acceptance.
   */
  ghost predicate Undisturbed(a: Authority, w: World, f: Found, way: Journey)
    requires Pack(f.listing, f.relative).Ok?
  {
    && way.k !in Sent(a, w, f, way).drills && way.j !in ReceiptWritten(a, w, f, way).acceptances
    && (way.copy.Some? ==> NameOf(f) in way.copy.value && way.copy.value[NameOf(f)].tarSha == a.sha(BodyOf(f)))
    && (var there := DrillBegun(a, w, f, way).site.objects; NameOf(f) in there && there[NameOf(f)] == BodyOf(f))
    && (forall e | e in way.afterStart :: SparesDrill(e, way.k))
    && (forall e | e in way.afterDrill :: SparesDrill(e, way.k))
    && (forall e | e in way.beforeAccept :: SparesAcceptance(e, way.j))
  }

  lemma SendsWhole(a: Authority, w: World, f: Found)
    requires SendsNow(a, w, f)
    ensures DistinctNames(f.listing) && Misplacement(a, f).None? && Pack(f.listing, f.relative).Ok?
    ensures IsComplete(a, FilesIn(f.listing)) && !Holds(f.listing, RAW_RECORDS)
  {
    hide Pack, FilesIn, Holds, Misplacement, NameOf;
  }

  /** Up to the drill's verdict. */
  lemma DrillComes(a: Authority, w: World, f: Found, way: Journey)
    requires WellFormed(a) && Inv(a, w) && SendsNow(a, w, f) && Undisturbed(a, w, f, way)
    requires RestoreTable.HasReplayed(a, KeptFiles(f.listing))
    ensures ManifestHash(a, f).Some?
    ensures var v := ObjectDrilled(a, w, f, way);
      && Inv(a, v) && OnRecord(v.site.ledger, NameOf(f), ManifestHash(a, f).value, a.sha(BodyOf(f)))
      && way.k in v.drills
      && v.drills[way.k].verified == [Restored(NameOf(f), a.sha(BodyOf(f)), ManifestHash(a, f).value,
                                               a.replay(KeptFiles(f.listing)).records, way.copy.Some?)]
  {
    SendsWhole(a, w, f);
    SentHasManifest(a, f);
    var n, hash, sha := NameOf(f), ManifestHash(a, f).value, a.sha(BodyOf(f));
    var w1, w2 := Sent(a, w, f, way), DrillBegun(a, w, f, way);
    SentStaysOnRecord(a, w, f, way.afterPut);
    hide Inv, WellFormed, Next, After, OnRecord, NameOf, Pack, KeptFiles, FilesIn, Holds, ManifestHash, Misplacement,
         Restore.Drill, SparesDrill, SparesAcceptance, SendsNow, ReceiptWritten;
    BeginsDrill(a, w1, way.k, way.copy, way.afterStart);
    SentIsVerified(a, f, w2.site.objects, way.copy, map[]);
    DrillsObject(a, w2, way.k, n, way.afterDrill);
    Whole(a, w1, [StartDrill(way.k, way.copy)] + way.afterStart, n, hash, sha);
    Whole(a, w2, [DrillNext(way.k, n, Restore.Arrives)] + way.afterDrill, n, hash, sha);
  }

  /** Up to the receipt. */
  lemma ReceiptComes(a: Authority, w: World, f: Found, way: Journey)
    requires WellFormed(a) && Inv(a, w) && SendsNow(a, w, f) && Undisturbed(a, w, f, way)
    requires RestoreTable.HasReplayed(a, KeptFiles(f.listing))
    ensures ManifestHash(a, f).Some?
    ensures var v := ReceiptWritten(a, w, f, way);
      && Inv(a, v) && ReceiptFor(a, f, way) in v.receipts
      && OnRecord(v.site.ledger, NameOf(f), ManifestHash(a, f).value, a.sha(BodyOf(f)))
  {
    DrillComes(a, w, f, way);
    hide Inv, WellFormed, Next, After, OnRecord, NameOf, Pack, KeptFiles, ManifestHash, SendsNow, Undisturbed, ObjectDrilled,
         ReceiptText;
    var v := ObjectDrilled(a, w, f, way);
    WritesReceipt(a, v, way.k, way.verifiedAt, way.afterReceipt);
    Whole(a, v, [EndDrill(way.k, way.verifiedAt)] + way.afterReceipt, NameOf(f), ManifestHash(a, f).value, a.sha(BodyOf(f)));
  }

  /** What is on record stays on record, and the invariant holds. */
  lemma Whole(a: Authority, w: World, events: seq<Event>, n: string, hash: string, tarSha: string)
    requires WellFormed(a) && Inv(a, w) && OnRecord(w.site.ledger, n, hash, tarSha)
    ensures Inv(a, After(a, w, events)) && OnRecord(After(a, w, events).site.ledger, n, hash, tarSha)
  {
    hide Inv, WellFormed, After, OnRecord;
    AfterKeeps(a, w, events);
    OnRecordStays(w.site.ledger, After(a, w, events).site.ledger, n, hash, tarSha);
  }

  lemma SentStaysOnRecord(a: Authority, w: World, f: Found, more: seq<Event>)
    requires WellFormed(a) && Inv(a, w) && SendsNow(a, w, f)
    ensures ManifestHash(a, f).Some?
    ensures var v := After(a, w, [VisitNext(f, Answered)] + more);
      Inv(a, v) && OnRecord(v.site.ledger, NameOf(f), ManifestHash(a, f).value, a.sha(BodyOf(f)))
  {
    SentOnRecord(a, w, f);
    hide Inv, WellFormed, Next, After, Read, NameOf, Pack, ManifestHash, Misplacement, OnRecord, BodyOf;
    AfterFirst(a, w, VisitNext(f, Answered), more);
    Whole(a, Next(a, w, VisitNext(f, Answered)), more, NameOf(f), ManifestHash(a, f).value, a.sha(BodyOf(f)));
  }

  lemma SentOnRecord(a: Authority, w: World, f: Found)
    requires WellFormed(a) && Inv(a, w) && SendsNow(a, w, f)
    ensures ManifestHash(a, f).Some?
    ensures var next := Next(a, w, VisitNext(f, Answered));
      Inv(a, next) && OnRecord(next.site.ledger, NameOf(f), ManifestHash(a, f).value, a.sha(BodyOf(f)))
  {
    SentHasManifest(a, f);
    PutRecorded(a, w, f);
    hide Inv, WellFormed, Next, Read, NameOf, Pack, ManifestHash, Misplacement, SendsNow, BodyOf;
    NextKeeps(a, w, VisitNext(f, Answered));
  }

  lemma BeginsDrill(a: Authority, w: World, k: nat, copy: Option<map<string, Entry>>, more: seq<Event>)
    requires k !in w.drills && forall e | e in more :: SparesDrill(e, k)
    ensures var v := After(a, w, [StartDrill(k, copy)] + more); k in v.drills && v.drills[k] == Drilling(map[], [], copy)
  {
    hide SparesDrill, After;
    AfterFirst(a, w, StartDrill(k, copy), more);
    AfterSpares(a, Next(a, w, StartDrill(k, copy)), more, k);
  }

  lemma DrillsObject(a: Authority, w: World, k: nat, n: string, more: seq<Event>)
    requires k in w.drills && forall e | e in more :: SparesDrill(e, k)
    requires Restore.Drill(a, w.site.objects, w.drills[k].ledgerCopy, w.drills[k].tree, n, Restore.Arrives).0.Verified?
    ensures var v := After(a, w, [DrillNext(k, n, Restore.Arrives)] + more);
      && k in v.drills
      && v.drills[k].verified == w.drills[k].verified
           + [Restore.Drill(a, w.site.objects, w.drills[k].ledgerCopy, w.drills[k].tree, n, Restore.Arrives).0.restored]
  {
    hide SparesDrill, After, Restore.Drill, ReplayOf;
    AfterFirst(a, w, DrillNext(k, n, Restore.Arrives), more);
    AfterSpares(a, Next(a, w, DrillNext(k, n, Restore.Arrives)), more, k);
  }

  lemma WritesReceipt(a: Authority, w: World, k: nat, verifiedAt: int, more: seq<Event>)
    requires k in w.drills
    ensures ReceiptText(w.drills[k].verified, verifiedAt) in After(a, w, [EndDrill(k, verifiedAt)] + more).receipts
  {
    hide After, ReceiptText;
    AfterFirst(a, w, EndDrill(k, verifiedAt), more);
    AfterSpares(a, Next(a, w, EndDrill(k, verifiedAt)), more, k);
  }

  lemma BeginsAccept(a: Authority, w: World, j: nat, receipt: string, more: seq<Event>)
    requires j !in w.acceptances && receipt in w.receipts && forall e | e in more :: SparesAcceptance(e, j)
    ensures var v := After(a, w, [StartAccept(j, receipt, |receipt|)] + more);
      && j in v.acceptances
      && v.acceptances[j] == Accepting(AcceptStarted(w.site.ledger), w.clock, Lines(receipt))
  {
    hide SparesAcceptance, After, Lines, AcceptStarted;
    assert receipt[..|receipt|] == receipt;
    AfterFirst(a, w, StartAccept(j, receipt, |receipt|), more);
    AfterSpares(a, Next(a, w, StartAccept(j, receipt, |receipt|)), more, j);
  }

  /**
   * End to end, over every history: an object that is sent, is still there with the bytes that
   * were sent when a drill downloads it, holds files that are complete and replay, and whose
   * receipt is accepted, is RESTORE_VERIFIED in the ledger file, under the hashes it was sent
   * with. It makes no difference whether the PUT created the object or met it, nor what else
   * happens in between.
   */
  lemma {:induction false} SentReturnsVerified(a: Authority, events: seq<Event>, f: Found, way: Journey)
    requires WellFormed(a) && SendsNow(a, History(a, events), f) && Undisturbed(a, History(a, events), f, way)
    requires RestoreTable.HasReplayed(a, KeptFiles(f.listing))
    ensures ManifestHash(a, f).Some?
    ensures var v := Returned(a, History(a, events), f, way);
      && OnRecord(v.site.ledger, NameOf(f), ManifestHash(a, f).value, a.sha(BodyOf(f)))
      && Read(v.site.ledger).entries[NameOf(f)].state.RestoreVerified?
  {
    HistorySafe(a, events);
    var w := History(a, events);
    ReceiptComes(a, w, f, way);
    var w4, receipt := ReceiptWritten(a, w, f, way), ReceiptFor(a, f, way);
    hide History, SendsNow, Inv, WellFormed, Next, After, Read, NameOf, Pack, KeptFiles, ManifestHash, ReceiptWritten,
         SparesDrill, SparesAcceptance, ReceiptText, Lines, Statement, IsBlank;
    var n, hash, sha := NameOf(f), ManifestHash(a, f).value, a.sha(BodyOf(f));
    var r := Restored(n, sha, hash, a.replay(KeptFiles(f.listing)).records, way.copy.Some?);
    OneLineReceipt(r, way.verifiedAt);
    BeginsAccept(a, w4, way.j, receipt, way.beforeAccept);
    Whole(a, w4, [StartAccept(way.j, receipt, |receipt|)] + way.beforeAccept, n, hash, sha);
    LineUpgrades(a, AcceptBegun(a, w, f, way), way.j, n, hash, sha);
  }
}
