/**
 * Accepting restore receipts on the host that made the backup: a line upgrades an object
 * to RESTORE_VERIFIED only when it names the very bytes the ledger recorded.
 */
module Receipts {
  import opened Wrappers
  import opened FlatJson
  import opened Ledger
  import opened Backup

  // ---- Receipt lines -------------------------------------------------------

  /** What a restore on another host states about one object it replayed. */
  datatype Restored = Restored(name: string, tarSha: string, manifestHash: string, records: nat, ledgerMatch: bool)

  function ReceiptObject(r: Restored, verifiedAt: int): Object {
    [ Member("ledger_match", Bool(r.ledgerMatch)), Member("manifest_content_hash", Str(r.manifestHash)),
      Member("object", Str(r.name)), Member("records", Int(r.records)), Member("tar_sha256", Str(r.tarSha)),
      Member("verified_at", Int(verifiedAt)) ]
  }

  function ReceiptLine(r: Restored, verifiedAt: int): string {
    Dumps(ReceiptObject(r, verifiedAt))
  }

  /** The object and digest a receipt line states. */
  function Statement(line: string): Option<(string, string)> {
    var o :- Loads(line);
    var name :- Lookup(o, "object");
    var tarSha :- Lookup(o, "tar_sha256");
    Some((PyStr(name), PyStr(tarSha)))
  }

  lemma LookupReceipt(r: Restored, verifiedAt: int)
    ensures Lookup(ReceiptObject(r, verifiedAt), "object") == Some(Str(r.name))
    ensures Lookup(ReceiptObject(r, verifiedAt), "tar_sha256") == Some(Str(r.tarSha))
  {
    hide Lookup;
    LookupAt(ReceiptObject(r, verifiedAt), 2);
    LookupAt(ReceiptObject(r, verifiedAt), 4);
  }

  /** A receipt line states the object and the digest of the bytes that were restored. */
  lemma {:induction false} StatementOfReceipt(r: Restored, verifiedAt: int)
    ensures Statement(ReceiptLine(r, verifiedAt)) == Some((r.name, r.tarSha))
  {
    hide Lookup, Loads, Dumps, ReceiptObject;
    LoadsDumps(ReceiptObject(r, verifiedAt));
    LookupReceipt(r, verifiedAt);
  }

  /** A receipt file: one line for each object a drill verified. */
  function ReceiptText(rs: seq<Restored>, verifiedAt: int): string {
    if rs == [] then "" else ReceiptLine(rs[0], verifiedAt) + "\n" + ReceiptText(rs[1..], verifiedAt)
  }

  /** Some object of the receipt has this name and digest. */
  ghost predicate Stated(rs: seq<Restored>, name: string, tarSha: string) {
    exists i :: 0 <= i < |rs| && rs[i].name == name && rs[i].tarSha == tarSha
  }

  ghost predicate StatesOnly(lines: seq<string>, rs: seq<Restored>) {
    forall i | 0 <= i < |lines| && Statement(lines[i]).Some? ::
      Stated(rs, Statement(lines[i]).value.0, Statement(lines[i]).value.1)
  }

  lemma CutLineStatesNothing(r: Restored, verifiedAt: int, cut: nat)
    requires cut < |ReceiptLine(r, verifiedAt)|
    ensures Lines(ReceiptLine(r, verifiedAt)[..cut]) ==
            if cut == 0 then [] else [ReceiptLine(r, verifiedAt)[..cut]]
    ensures Statement(ReceiptLine(r, verifiedAt)[..cut]).None?
  {
    var o := ReceiptObject(r, verifiedAt);
    hide Dumps, Loads, Lines, Lookup, ReceiptObject;
    DumpsUnbroken(o, cut);
    NoStrictPrefixLoads(o, cut);
    if cut == 0 {
      EmptyLines();
      assert Dumps(o)[..0] == "";
    } else {
      LinesUnbroken(Dumps(o)[..cut]);
    }
  }

  /** However much of a receipt arrives, its lines state nothing but objects of the drill. */
  lemma {:induction false} CutReceiptStatesOnly(rs: seq<Restored>, verifiedAt: int, cut: nat)
    requires cut <= |ReceiptText(rs, verifiedAt)|
    ensures StatesOnly(Lines(ReceiptText(rs, verifiedAt)[..cut]), rs)
    decreases |rs|
  {
    hide ReceiptLine, Lines, Statement;
    if rs == [] {
      EmptyLines();
      assert ReceiptText(rs, verifiedAt)[..cut] == "";
    } else {
      var line, rest := ReceiptLine(rs[0], verifiedAt), ReceiptText(rs[1..], verifiedAt);
      var text := ReceiptText(rs, verifiedAt);
      if cut < |line| {
        assert text[..cut] == line[..cut];
        CutLineStatesNothing(rs[0], verifiedAt, cut);
      } else if cut == |line| {
        assert text[..cut] == line;
        WholeLineStates(rs, verifiedAt);
      } else {
        var more := cut - |line| - 1;
        assert text[..cut] == (line + "\n") + rest[..more];
        WholeLineStates(rs, verifiedAt);
        LinesAfterNewline(line + "\n", rest[..more]);
        CutReceiptStatesOnly(rs[1..], verifiedAt, more);
        StatesJoin([line], Lines(rest[..more]), rs);
      }
    }
  }

  lemma WholeLineStates(rs: seq<Restored>, verifiedAt: int)
    requires rs != []
    ensures var line := ReceiptLine(rs[0], verifiedAt);
      Lines(line) == [line] && Lines(line + "\n") == [line] && StatesOnly([line], rs)
  {
    hide Statement, Dumps, ReceiptObject, Lines, StatesOnly;
    StatementOfReceipt(rs[0], verifiedAt);
    ObjectLines(ReceiptObject(rs[0], verifiedAt));
    StatesFirst(ReceiptLine(rs[0], verifiedAt), rs);
  }

  lemma StatesFirst(line: string, rs: seq<Restored>)
    requires rs != [] && Statement(line) == Some((rs[0].name, rs[0].tarSha))
    ensures StatesOnly([line], rs)
  {
    hide Statement;
    assert Stated(rs, rs[0].name, rs[0].tarSha);
  }

  lemma ObjectLines(o: Object)
    ensures Lines(Dumps(o)) == [Dumps(o)] && Lines(Dumps(o) + "\n") == [Dumps(o)]
  {
    LinesOfObject(o);
    DumpsUnbroken(o, |Dumps(o)|);
    assert Dumps(o) != "";
    hide Dumps, Lines;
    assert Dumps(o)[..|Dumps(o)|] == Dumps(o);
    LinesUnbroken(Dumps(o));
  }

  lemma StatesJoin(head: seq<string>, tail: seq<string>, rs: seq<Restored>)
    requires rs != [] && StatesOnly(head, rs) && StatesOnly(tail, rs[1..])
    ensures StatesOnly(head + tail, rs)
  {
    hide Statement;
    var lines := head + tail;
    forall i | 0 <= i < |lines| && Statement(lines[i]).Some?
      ensures Stated(rs, Statement(lines[i]).value.0, Statement(lines[i]).value.1) {
      if i >= |head| {
        var k :| 0 <= k < |rs[1..]| && rs[1..][k].name == Statement(lines[i]).value.0
                 && rs[1..][k].tarSha == Statement(lines[i]).value.1;
        assert rs[k + 1] == rs[1..][k];
      }
    }
  }

  /** The characters `str.strip` removes. */
  predicate IsWhitespace(c: char) {
    '\t' <= c <= '\r' || '\U{001C}' <= c <= ' ' || c == '\U{0085}' || c == '\U{00A0}' || c == '\U{1680}'
    || '\U{2000}' <= c <= '\U{200A}' || c == '\U{2028}' || c == '\U{2029}' || c == '\U{202F}' || c == '\U{205F}'
    || c == '\U{3000}'
  }

  predicate IsBlank(line: string) {
    forall i | 0 <= i < |line| :: IsWhitespace(line[i])
  }

  // ---- One line ------------------------------------------------------------

  datatype Refusal = LineUnreadable | NotInTheLedger | BytesDiffer

  datatype Acceptance = Acceptance(
    cache: map<string, Entry>,
    inconsistent: set<string>,
    accepted: seq<string>,
    already: nat,
    refused: seq<(string, Refusal)>)

  datatype Verdict = Blank | Refuse(name: string, refusal: Refusal) | Already | Accept(name: string)

  function Judge(acc: Acceptance, line: string): (v: Verdict)
    ensures v.Accept? ==> v.name in acc.cache && v.name !in acc.inconsistent
  {
    if IsBlank(line) then Blank
    else
      match Statement(line)
      case None => Refuse("-", LineUnreadable)
      case Some((name, digest)) =>
        if name !in acc.cache || name in acc.inconsistent then Refuse(name, NotInTheLedger)
        else if acc.cache[name].tarSha != digest then Refuse(name, BytesDiffer)
        else if acc.cache[name].state.RestoreVerified? then Already
        else Accept(name)
  }

  /** The ledger line of an accepted receipt. */
  function VerifiedRecord(name: string, e: Entry, now: nat): Record {
    Record(name, e.manifestHash, e.tarSha, e.size, now / NANOS, RESTORE_VERIFIED)
  }

  function AcceptLine(acc: Acceptance, ledger: string, line: string, now: nat): (Acceptance, string) {
    match Judge(acc, line)
    case Blank => (acc, ledger)
    case Refuse(name, refusal) => (acc.(refused := acc.refused + [(name, refusal)]), ledger)
    case Already => (acc.(already := acc.already + 1), ledger)
    case Accept(name) =>
      (acc.(cache := acc.cache[name := acc.cache[name].(state := RestoreVerified)], accepted := acc.accepted + [name]),
       ledger + AppendText(ledger, VerifiedRecord(name, acc.cache[name], now)))
  }

  function AcceptAll(acc: Acceptance, ledger: string, lines: seq<string>, now: nat): (Acceptance, string) {
    if lines == [] then (acc, ledger)
    else
      var (before, text) := AcceptAll(acc, ledger, lines[..|lines| - 1], now);
      AcceptLine(before, text, lines[|lines| - 1], now)
  }

  function AcceptStarted(ledger: string): Acceptance {
    Acceptance(Read(ledger).entries, Read(ledger).inconsistent, [], 0, [])
  }

  // ---- The command ---------------------------------------------------------

  /** `accept_restore_receipt`; an unreadable receipt file is an error before anything is written. */
  method AcceptRestoreReceipt(file: LedgerFile, receipt: Option<string>, now: nat)
    returns (r: Option<(seq<string>, nat, seq<(string, Refusal)>)>)
    modifies file
    ensures receipt.None? ==> r.None? && file.text == old(file.text)
    ensures receipt.Some? ==>
              var (acc, text) := AcceptAll(AcceptStarted(old(file.text)), old(file.text), Lines(receipt.value), now);
              file.text == text && r == Some((acc.accepted, acc.already, acc.refused))
  {
    hide Read, AppendText, Fold, RecordsOf, Statement, IsBlank, Lines;
    var g := file.Load();
    var ledger, inconsistent := g.entries, g.inconsistent;
    var accepted: seq<string>, already: nat, refused: seq<(string, Refusal)> := [], 0, [];
    if receipt.None? {
      return None;
    }
    var lines := Lines(receipt.value);
    ghost var start := file.text;
    for i := 0 to |lines|
      invariant AcceptAll(AcceptStarted(start), start, lines[..i], now) ==
                (Acceptance(ledger, inconsistent, accepted, already, refused), file.text)
    {
      var line := lines[i];
      assert lines[..i + 1][..i] == lines[..i];
      if !IsBlank(line) {
        var stated := Statement(line);
        match stated {
          case None =>
            refused := refused + [("-", LineUnreadable)];
          case Some((name, digest)) =>
            if name !in ledger || name in inconsistent {
              refused := refused + [(name, NotInTheLedger)];
            } else if ledger[name].tarSha != digest {
              refused := refused + [(name, BytesDiffer)];
            } else if ledger[name].state.RestoreVerified? {
              already := already + 1;
            } else {
              var entry := ledger[name];
              file.Append(Record(name, entry.manifestHash, entry.tarSha, entry.size, now / NANOS, RESTORE_VERIFIED));
              ledger := ledger[name := entry.(state := RestoreVerified)];
              accepted := accepted + [name];
            }
        }
      }
    }
    assert lines[..|lines|] == lines;
    return Some((accepted, already, refused));
  }

  // ---- What acceptance keeps -----------------------------------------------

  ghost predicate AcceptAgrees(acc: Acceptance, ledger: string) {
    Read(ledger) == Reading(acc.cache, acc.inconsistent)
  }

  lemma FoldVerified(g: Reading, name: string, now: nat)
    requires name in g.entries
    ensures Fold(g, VerifiedRecord(name, g.entries[name], now)) ==
            g.(entries := g.entries[name := g.entries[name].(state := RestoreVerified)])
  {
  }

  lemma LineAgrees(acc: Acceptance, ledger: string, line: string, now: nat)
    requires AcceptAgrees(acc, ledger)
    ensures AcceptAgrees(AcceptLine(acc, ledger, line, now).0, AcceptLine(acc, ledger, line, now).1)
  {
    hide Read, AppendText, Fold, Statement, IsBlank;
    var v := Judge(acc, line);
    if v.Accept? {
      AppendRead(ledger, VerifiedRecord(v.name, acc.cache[v.name], now));
      FoldVerified(Reading(acc.cache, acc.inconsistent), v.name, now);
    }
  }

  /** After every line, what the command holds in memory is what the file reads as. */
  lemma {:induction false} AcceptanceAgrees(acc: Acceptance, ledger: string, lines: seq<string>, now: nat)
    requires AcceptAgrees(acc, ledger)
    ensures AcceptAgrees(AcceptAll(acc, ledger, lines, now).0, AcceptAll(acc, ledger, lines, now).1)
  {
    hide AcceptAgrees, AcceptLine;
    if lines != [] {
      AcceptanceAgrees(acc, ledger, lines[..|lines| - 1], now);
      var (before, text) := AcceptAll(acc, ledger, lines[..|lines| - 1], now);
      LineAgrees(before, text, lines[|lines| - 1], now);
    }
  }

  /** Some line states exactly the digest the ledger recorded for this name. */
  ghost predicate Vouched(lines: seq<string>, name: string, tarSha: string) {
    exists i :: 0 <= i < |lines| && !IsBlank(lines[i]) && Statement(lines[i]) == Some((name, tarSha))
  }

  /** The closed form of acceptance: which entries end up verified, and that nothing else changes. */
  ghost predicate Upgraded(before: map<string, Entry>, inconsistent: set<string>, lines: seq<string>,
                           after: map<string, Entry>) {
    && after.Keys == before.Keys
    && forall n | n in before ::
         after[n] == if n !in inconsistent && Vouched(lines, n, before[n].tarSha)
                     then before[n].(state := RestoreVerified) else before[n]
  }

  lemma VouchedNext(lines: seq<string>, name: string, tarSha: string)
    requires lines != []
    ensures Vouched(lines, name, tarSha) <==>
            || Vouched(lines[..|lines| - 1], name, tarSha)
            || (!IsBlank(lines[|lines| - 1]) && Statement(lines[|lines| - 1]) == Some((name, tarSha)))
  {
    hide IsBlank, Statement;
    if Vouched(lines[..|lines| - 1], name, tarSha) {
      var i :| 0 <= i < |lines| - 1 && !IsBlank(lines[..|lines| - 1][i])
               && Statement(lines[..|lines| - 1][i]) == Some((name, tarSha));
      assert lines[i] == lines[..|lines| - 1][i];
    }
    if Vouched(lines, name, tarSha) {
      var i :| 0 <= i < |lines| && !IsBlank(lines[i]) && Statement(lines[i]) == Some((name, tarSha));
      assert i < |lines| - 1 ==> lines[..|lines| - 1][i] == lines[i];
    }
  }

  /** An entry is verified exactly when it was, or when a line vouches for its recorded digest. */
  lemma {:induction false} AcceptMeans(acc: Acceptance, ledger: string, lines: seq<string>, now: nat)
    ensures var after := AcceptAll(acc, ledger, lines, now).0;
      after.inconsistent == acc.inconsistent && Upgraded(acc.cache, acc.inconsistent, lines, after.cache)
  {
    hide IsBlank, Statement, AppendText;
    if lines != [] {
      AcceptMeans(acc, ledger, lines[..|lines| - 1], now);
      forall n | n in acc.cache {
        VouchedNext(lines, n, acc.cache[n].tarSha);
      }
    }
  }

  /** Accepting a receipt never changes what any window of the ledger weighs. */
  lemma {:induction false} AcceptKeepsWindows(acc: Acceptance, ledger: string, lines: seq<string>, now: nat, start: int)
    ensures WindowSum(AcceptAll(acc, ledger, lines, now).0.cache, start) == WindowSum(acc.cache, start)
  {
    hide Statement, IsBlank, AppendText;
    if lines != [] {
      AcceptKeepsWindows(acc, ledger, lines[..|lines| - 1], now, start);
      var (before, text) := AcceptAll(acc, ledger, lines[..|lines| - 1], now);
      var v := Judge(before, lines[|lines| - 1]);
      if v.Accept? {
        WindowSumReplace(before.cache, start, v.name, before.cache[v.name].(state := RestoreVerified));
      }
    }
  }

  function LinesThatSay(lines: seq<string>): nat {
    if lines == [] then 0 else LinesThatSay(lines[..|lines| - 1]) + if IsBlank(lines[|lines| - 1]) then 0 else 1
  }

  /** Every line that says something is accepted, already known, or refused. */
  lemma {:induction false} AcceptAccounting(acc: Acceptance, ledger: string, lines: seq<string>, now: nat)
    ensures var after := AcceptAll(acc, ledger, lines, now).0;
      |after.accepted| + after.already + |after.refused| ==
      |acc.accepted| + acc.already + |acc.refused| + LinesThatSay(lines)
  {
    hide Statement, IsBlank, AppendText;
    if lines != [] {
      AcceptAccounting(acc, ledger, lines[..|lines| - 1], now);
    }
  }
}
