/**
 * The table of a receipt: which verdict each line of it gets, read off the ledger as it was
 * and the lines before, and from that the lists reported and the lines written.
 */
module ReceiptTable {
  import opened Wrappers
  import opened FlatJson
  import opened Ledger
  import opened Receipts

  /** A line that says something states this object and digest. */
  ghost predicate Says(line: string, name: string, digest: string) {
    !IsBlank(line) && Statement(line) == Some((name, digest))
  }

  /** The object is on record, without contradiction. */
  predicate OnRecord(acc: Acceptance, name: string) {
    name in acc.cache && name !in acc.inconsistent
  }

  /** An earlier line states the digest on record. */
  ghost predicate SaidBefore(acc: Acceptance, lines: seq<string>, i: nat, name: string)
    requires i <= |lines| && name in acc.cache
  {
    exists j :: 0 <= j < i && Says(lines[j], name, acc.cache[name].tarSha)
  }

  /** When a line gets this verdict. */
  ghost predicate Row(acc: Acceptance, lines: seq<string>, i: nat, v: Verdict)
    requires i < |lines|
  {
    match v
    case Blank => IsBlank(lines[i])
    case Refuse(name, LineUnreadable) => name == "-" && !IsBlank(lines[i]) && Statement(lines[i]) == None
    case Refuse(name, NotInTheLedger) => (exists d :: Says(lines[i], name, d)) && !OnRecord(acc, name)
    case Refuse(name, BytesDiffer) =>
      OnRecord(acc, name) && exists d :: Says(lines[i], name, d) && d != acc.cache[name].tarSha
    case Already =>
      exists name :: OnRecord(acc, name) && Says(lines[i], name, acc.cache[name].tarSha)
                     && (acc.cache[name].state == RestoreVerified || SaidBefore(acc, lines, i, name))
    case Accept(name) =>
      OnRecord(acc, name) && Says(lines[i], name, acc.cache[name].tarSha)
      && acc.cache[name].state != RestoreVerified && !SaidBefore(acc, lines, i, name)
  }

  lemma VouchedBefore(acc: Acceptance, lines: seq<string>, i: nat, name: string)
    requires i <= |lines| && name in acc.cache
    ensures Vouched(lines[..i], name, acc.cache[name].tarSha) <==> SaidBefore(acc, lines, i, name)
  {
    hide IsBlank, Statement;
    if Vouched(lines[..i], name, acc.cache[name].tarSha) {
      var j :| 0 <= j < i && !IsBlank(lines[..i][j]) && Statement(lines[..i][j]) == Some((name, acc.cache[name].tarSha));
      assert Says(lines[j], name, acc.cache[name].tarSha);
    }
    if SaidBefore(acc, lines, i, name) {
      var j :| 0 <= j < i && Says(lines[j], name, acc.cache[name].tarSha);
      assert lines[..i][j] == lines[j];
    }
  }

  lemma RowsApart(acc: Acceptance, lines: seq<string>, i: nat, v: Verdict, w: Verdict)
    requires i < |lines| && Row(acc, lines, i, v) && Row(acc, lines, i, w)
    ensures v == w
  {
    hide IsBlank, Statement, SaidBefore;
  }

  /** The ledger in memory before this line. */
  ghost predicate Now(acc: Acceptance, before: Acceptance, lines: seq<string>, i: nat)
    requires i <= |lines|
  {
    && before.inconsistent == acc.inconsistent && before.cache.Keys == acc.cache.Keys
    && forall n | n in acc.cache :: before.cache[n] ==
         if n !in acc.inconsistent && SaidBefore(acc, lines, i, n) then acc.cache[n].(state := RestoreVerified) else acc.cache[n]
  }

  lemma NowIs(acc: Acceptance, ledger: string, lines: seq<string>, i: nat, now: nat)
    requires i <= |lines|
    ensures Now(acc, AcceptAll(acc, ledger, lines[..i], now).0, lines, i)
  {
    AcceptMeans(acc, ledger, lines[..i], now);
    hide AcceptAll, Vouched, SaidBefore;
    forall n | n in acc.cache {
      VouchedBefore(acc, lines, i, n);
    }
  }

  lemma JudgedAs(acc: Acceptance, before: Acceptance, lines: seq<string>, i: nat)
    requires i < |lines| && Now(acc, before, lines, i)
    ensures Row(acc, lines, i, Judge(before, lines[i]))
  {
    hide SaidBefore, IsBlank, Statement;
    if !IsBlank(lines[i]) && Statement(lines[i]).Some? {
      var (name, digest) := Statement(lines[i]).value;
      assert Says(lines[i], name, digest);
    }
  }

  /** Each line gets exactly the verdict of its row, whatever the lines before did. */
  lemma {:induction false} LineTable(acc: Acceptance, ledger: string, lines: seq<string>, i: nat, now: nat, v: Verdict)
    requires i < |lines|
    ensures Judge(AcceptAll(acc, ledger, lines[..i], now).0, lines[i]) == v <==> Row(acc, lines, i, v)
  {
    var before := AcceptAll(acc, ledger, lines[..i], now).0;
    NowIs(acc, ledger, lines, i, now);
    JudgedAs(acc, before, lines, i);
    hide AcceptAll, Row, Judge, Now;
    if Row(acc, lines, i, v) {
      RowsApart(acc, lines, i, v, Judge(before, lines[i]));
    }
  }

  // ---- What is reported ----------------------------------------------------

  function NameIn(line: string): string {
    match Statement(line)
    case None => "-"
    case Some((name, _)) => name
  }

  ghost function AcceptedNames(acc: Acceptance, lines: seq<string>, n: nat): seq<string>
    requires n <= |lines|
  {
    if n == 0 then []
    else
      var name := NameIn(lines[n - 1]);
      AcceptedNames(acc, lines, n - 1) + if Row(acc, lines, n - 1, Accept(name)) then [name] else []
  }

  ghost function KnownCount(acc: Acceptance, lines: seq<string>, n: nat): nat
    requires n <= |lines|
  {
    if n == 0 then 0 else KnownCount(acc, lines, n - 1) + if Row(acc, lines, n - 1, Already) then 1 else 0
  }

  ghost function RefusedNames(acc: Acceptance, lines: seq<string>, n: nat): seq<(string, Refusal)>
    requires n <= |lines|
  {
    if n == 0 then []
    else
      var name := NameIn(lines[n - 1]);
      RefusedNames(acc, lines, n - 1)
      + if Row(acc, lines, n - 1, Refuse("-", LineUnreadable)) then [("-", LineUnreadable)]
        else if Row(acc, lines, n - 1, Refuse(name, NotInTheLedger)) then [(name, NotInTheLedger)]
        else if Row(acc, lines, n - 1, Refuse(name, BytesDiffer)) then [(name, BytesDiffer)]
        else []
  }

  /** The lines written: what is on record of each accepted object, as RESTORE_VERIFIED at this second. */
  ghost function WrittenLines(acc: Acceptance, lines: seq<string>, now: nat, n: nat): seq<Record>
    requires n <= |lines|
  {
    if n == 0 then []
    else
      var name := NameIn(lines[n - 1]);
      WrittenLines(acc, lines, now, n - 1)
      + if Row(acc, lines, n - 1, Accept(name)) then
          var e := acc.cache[name];
          [Record(name, e.manifestHash, e.tarSha, e.size, now / 1_000_000_000, "RESTORE_VERIFIED")]
        else []
  }

  lemma RowNames(acc: Acceptance, lines: seq<string>, i: nat, v: Verdict)
    requires i < |lines| && Row(acc, lines, i, v)
    ensures v.Accept? || (v.Refuse? && !v.refusal.LineUnreadable?) ==> v.name == NameIn(lines[i])
  {
    hide IsBlank, Statement, SaidBefore;
  }

  lemma RowIff(acc: Acceptance, lines: seq<string>, i: nat, v: Verdict, w: Verdict)
    requires i < |lines| && Row(acc, lines, i, v)
    ensures Row(acc, lines, i, w) <==> v == w
  {
    hide Row;
    if Row(acc, lines, i, w) {
      RowsApart(acc, lines, i, v, w);
    }
  }

  /** What one line adds to the lists. */
  lemma OneLineMore(acc: Acceptance, lines: seq<string>, n: nat, v: Verdict)
    requires n < |lines| && Row(acc, lines, n, v)
    ensures AcceptedNames(acc, lines, n + 1) == AcceptedNames(acc, lines, n) + if v.Accept? then [v.name] else []
    ensures KnownCount(acc, lines, n + 1) == KnownCount(acc, lines, n) + if v.Already? then 1 else 0
    ensures RefusedNames(acc, lines, n + 1) == RefusedNames(acc, lines, n) + if v.Refuse? then [(v.name, v.refusal)] else []
  {
    RowNames(acc, lines, n, v);
    assert v.Refuse? && v.refusal.LineUnreadable? ==> v.name == "-";
    hide Row, NameIn;
    var name := NameIn(lines[n]);
    RowIff(acc, lines, n, v, Accept(name));
    RowIff(acc, lines, n, v, Already);
    RowIff(acc, lines, n, v, Refuse("-", LineUnreadable));
    RowIff(acc, lines, n, v, Refuse(name, NotInTheLedger));
    RowIff(acc, lines, n, v, Refuse(name, BytesDiffer));
  }

  /** And to the file. */
  lemma OneWritten(acc: Acceptance, lines: seq<string>, n: nat, now: nat, v: Verdict)
    requires n < |lines| && Row(acc, lines, n, v)
    ensures v.Accept? ==> v.name in acc.cache
    ensures WrittenLines(acc, lines, now, n + 1) == WrittenLines(acc, lines, now, n) +
              if v.Accept? then
                var e := acc.cache[v.name];
                [Record(v.name, e.manifestHash, e.tarSha, e.size, now / 1_000_000_000, "RESTORE_VERIFIED")]
              else []
  {
    RowNames(acc, lines, n, v);
    RowIff(acc, lines, n, v, Accept(NameIn(lines[n])));
    assert v.Accept? ==> v.name in acc.cache;
    assert Row(acc, lines, n, Accept(NameIn(lines[n]))) ==> NameIn(lines[n]) in acc.cache;
    hide Row, NameIn;
  }

  /**
   * The report of an acceptance, exactly: the objects accepted and refused in the order of
   * their lines, the count of those already known, and one ledger line for each accepted.
   */
  lemma {:induction false} ReceiptMeans(acc: Acceptance, ledger: string, lines: seq<string>, now: nat, n: nat)
    requires n <= |lines|
    ensures var (after, text) := AcceptAll(acc, ledger, lines[..n], now);
      && after.accepted == acc.accepted + AcceptedNames(acc, lines, n)
      && after.already == acc.already + KnownCount(acc, lines, n)
      && after.refused == acc.refused + RefusedNames(acc, lines, n)
      && RecordsOf(text) == RecordsOf(ledger) + WrittenLines(acc, lines, now, n)
  {
    hide Row, RecordsOf, AcceptedNames, KnownCount, RefusedNames, WrittenLines, AppendText, Judge;
    if n == 0 {
      NoLines(acc, lines, now);
    } else {
      ReceiptMeans(acc, ledger, lines, now, n - 1);
      assert lines[..n][..n - 1] == lines[..n - 1];
      var (before, text) := AcceptAll(acc, ledger, lines[..n - 1], now);
      NowIs(acc, ledger, lines, n - 1, now);
      hide AcceptAll;
      var v := Judge(before, lines[n - 1]);
      JudgedAs(acc, before, lines, n - 1);
      OneLineMore(acc, lines, n - 1, v);
      OneWritten(acc, lines, n - 1, now, v);
      if v.Accept? {
        SameEvidence(acc, before, lines, n - 1, v.name, now);
        AppendRead(text, VerifiedRecord(v.name, before.cache[v.name], now));
      }
    }
  }

  lemma NoLines(acc: Acceptance, lines: seq<string>, now: nat)
    ensures AcceptedNames(acc, lines, 0) == [] && KnownCount(acc, lines, 0) == 0 && RefusedNames(acc, lines, 0) == []
    ensures WrittenLines(acc, lines, now, 0) == []
  {
  }

  lemma SameEvidence(acc: Acceptance, before: Acceptance, lines: seq<string>, i: nat, name: string, now: nat)
    requires i < |lines| && Now(acc, before, lines, i) && name in acc.cache
    ensures name in before.cache
    ensures var e := acc.cache[name];
      VerifiedRecord(name, before.cache[name], now) ==
      Record(name, e.manifestHash, e.tarSha, e.size, now / 1_000_000_000, "RESTORE_VERIFIED")
  {
  }

  // ---- Lines ---------------------------------------------------------------

  /** What any flat object states: the last value under each of its two keys, as text; without both, nothing. */
  lemma {:induction false} StatementOfObject(o: Object)
    ensures Statement(Dumps(o)) == None <==> Lookup(o, "object") == None || Lookup(o, "tar_sha256") == None
    ensures forall name: string, digest: string | Lookup(o, "object") == Some(Str(name)) && Lookup(o, "tar_sha256") == Some(Str(digest)) ::
      Statement(Dumps(o)) == Some((name, digest))
  {
    LoadsDumps(o);
    hide Loads, Dumps, Lookup;
  }

  /** A line of spaces and tabs says nothing; a line with a visible ASCII character says something. */
  lemma {:induction false} BlankLines(line: string)
    ensures (forall i | 0 <= i < |line| :: line[i] == ' ' || line[i] == '\t') ==> IsBlank(line)
    ensures (exists i :: 0 <= i < |line| && '!' <= line[i] <= '~') ==> !IsBlank(line)
  {
  }
}
