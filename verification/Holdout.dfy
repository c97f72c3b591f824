/**
 * The tables that make a holdout one-shot: research cycles, preregistration packets,
 * holdout openings, validations and candidate states, under any sequence of transactions.
 *
 * Rows keep the order of their insertion. A statement that breaks a check, a key, a foreign
 * key or the exclusion constraint, or that would change or delete a row, is refused, and
 * its whole transaction with it. Times are integer microseconds; `date` is the text of the
 * UTC day of an instant.
 */
module Holdout {
  import opened Wrappers
  import opened Text

  const DAY := 86_400_000_000
  const GRANDFATHERED := "cycle-2026-08-20"
  const GRANDFATHERED_START := 1_787_184_000_000_000

  datatype Json = Object | Array | OtherJson

  datatype Cycle = Cycle(id: string, start: int, registeredAt: int, note: string)
  datatype Packet = Packet(hash: string, uuid: nat, study: nat, cycle: string, status: string, identity: Json)
  datatype Opening = Opening(cycle: string, start: int, end: int, packet: string, status: string,
                             openedBy: string, openedAt: int)
  datatype Validation = Validation(hash: string, cycle: string, packet: string, dataset: string, identity: Json)
  datatype Candidate = Candidate(study: nat, trial: nat, state: string, evidence: string, reasons: Json)

  datatype Tables = Tables(
    studies: set<nat>, cycles: seq<Cycle>, packets: seq<Packet>, openings: seq<Opening>,
    validations: seq<Validation>, candidates: seq<Candidate>)

  // ---- Checks on one row ---------------------------------------------------

  /** `^cycle-[0-9]{4}-[0-9]{2}-[0-9]{2}$` */
  predicate IsCycleId(s: string) {
    && |s| == 16 && s[..6] == "cycle-" && s[10] == '-' && s[13] == '-'
    && forall i | 6 <= i < 16 && i != 10 && i != 13 :: IsDigit(s[i])
  }

  /** `^[0-9a-f]{64}$` */
  predicate IsHash(s: string) {
    |s| == 64 && forall i | 0 <= i < 64 :: IsDigit(s[i]) || 'a' <= s[i] <= 'f'
  }

  predicate CycleChecks(r: Cycle, date: int -> string) {
    && IsCycleId(r.id) && NotBlank(r.note)
    && r.id == "cycle-" + date(r.start)
    && r.start % DAY == 0
    && (r.start > r.registeredAt || r.id == GRANDFATHERED)
  }

  predicate PacketChecks(r: Packet) {
    IsHash(r.hash) && r.status in {"DRAFT", "AUTHORIZED"} && r.identity.Object?
  }

  predicate OpeningChecks(r: Opening) {
    r.status == "AUTHORIZED" && NotBlank(r.openedBy) && r.start < r.end <= r.openedAt
  }

  predicate ValidationChecks(r: Validation) {
    IsHash(r.hash) && IsHash(r.dataset) && r.identity.Object?
  }

  predicate CandidateChecks(r: Candidate) {
    r.state in {"INCUBATING", "HOLDOUT_FAILED_REJECTED"} && r.reasons.Array?
  }

  predicate Overlap(a: Opening, b: Opening) {
    a.start < b.end && b.start < a.end
  }

  // ---- Keys ----------------------------------------------------------------

  predicate HasCycle(t: Tables, id: string) {
    exists i :: 0 <= i < |t.cycles| && t.cycles[i].id == id
  }

  predicate HasCycleStart(t: Tables, id: string, start: int) {
    exists i :: 0 <= i < |t.cycles| && t.cycles[i].id == id && t.cycles[i].start == start
  }

  predicate HasPacket(t: Tables, hash: string, status: string) {
    exists i :: 0 <= i < |t.packets| && t.packets[i].hash == hash && t.packets[i].status == status
  }

  predicate HasOpening(t: Tables, cycle: string, packet: string) {
    exists i :: 0 <= i < |t.openings| && t.openings[i].cycle == cycle && t.openings[i].packet == packet
  }

  predicate HasValidation(t: Tables, hash: string) {
    exists i :: 0 <= i < |t.validations| && t.validations[i].hash == hash
  }

  predicate AllowsCycle(t: Tables, r: Cycle, date: int -> string) {
    && CycleChecks(r, date)
    && forall i | 0 <= i < |t.cycles| :: t.cycles[i].id != r.id && t.cycles[i].start != r.start
  }

  predicate AllowsPacket(t: Tables, r: Packet) {
    && PacketChecks(r)
    && (forall i | 0 <= i < |t.packets| :: t.packets[i].hash != r.hash && t.packets[i].uuid != r.uuid)
    && r.study in t.studies && HasCycle(t, r.cycle)
  }

  predicate AllowsOpening(t: Tables, r: Opening) {
    && OpeningChecks(r)
    && (forall i | 0 <= i < |t.openings| :: t.openings[i].cycle != r.cycle && !Overlap(t.openings[i], r))
    && HasCycleStart(t, r.cycle, r.start) && HasPacket(t, r.packet, r.status)
  }

  predicate AllowsValidation(t: Tables, r: Validation) {
    && ValidationChecks(r)
    && (forall i | 0 <= i < |t.validations| :: t.validations[i].hash != r.hash && t.validations[i].cycle != r.cycle)
    && HasOpening(t, r.cycle, r.packet)
  }

  predicate SameCandidate(a: Candidate, b: Candidate) {
    a.study == b.study && a.trial == b.trial && a.evidence == b.evidence
  }

  predicate AllowsCandidate(t: Tables, r: Candidate) {
    && CandidateChecks(r)
    && (forall i | 0 <= i < |t.candidates| :: !SameCandidate(t.candidates[i], r))
    && r.study in t.studies && HasValidation(t, r.evidence)
  }

  // ---- Statements ----------------------------------------------------------

  datatype Row =
    | CycleRow(cycle: Cycle)
    | PacketRow(packet: Packet)
    | OpeningRow(opening: Opening)
    | ValidationRow(validation: Validation)
    | CandidateRow(candidate: Candidate)

  datatype Table = CycleTable | PacketTable | OpeningTable | ValidationTable | CandidateTable

  /** `Change` is an UPDATE or a DELETE, by the rows its condition picks. */
  datatype Statement = RecordStudy(study: nat) | Insert(row: Row) | Change(table: Table, picked: set<nat>)

  function Count(t: Tables, table: Table): nat {
    match table
    case CycleTable => |t.cycles|
    case PacketTable => |t.packets|
    case OpeningTable => |t.openings|
    case ValidationTable => |t.validations|
    case CandidateTable => |t.candidates|
  }

  /** The row as the stamp triggers leave it: the two instants are the database's own. */
  function StampedRow(r: Row, now: int): Row {
    match r
    case CycleRow(c) => CycleRow(c.(registeredAt := now))
    case OpeningRow(o) => OpeningRow(o.(openedAt := now))
    case _ => r
  }

  predicate Allows(t: Tables, r: Row, date: int -> string) {
    match r
    case CycleRow(c) => AllowsCycle(t, c, date)
    case PacketRow(p) => AllowsPacket(t, p)
    case OpeningRow(o) => AllowsOpening(t, o)
    case ValidationRow(v) => AllowsValidation(t, v)
    case CandidateRow(c) => AllowsCandidate(t, c)
  }

  function WithRow(t: Tables, r: Row): Tables {
    match r
    case CycleRow(c) => t.(cycles := t.cycles + [c])
    case PacketRow(p) => t.(packets := t.packets + [p])
    case OpeningRow(o) => t.(openings := t.openings + [o])
    case ValidationRow(v) => t.(validations := t.validations + [v])
    case CandidateRow(c) => t.(candidates := t.candidates + [c])
  }

  /** One statement at the transaction's instant; `None` when it is refused. */
  function Step(t: Tables, s: Statement, now: int, date: int -> string): Option<Tables> {
    match s
    case RecordStudy(study) => Some(t.(studies := t.studies + {study}))
    case Insert(row) =>
      var stamped := StampedRow(row, now);
      if Allows(t, stamped, date) then Some(WithRow(t, stamped)) else None
    case Change(table, picked) =>
      if exists i :: i in picked && i < Count(t, table) then None else Some(t)
  }

  datatype Transaction = Transaction(statements: seq<Statement>, now: int)

  function Steps(t: Tables, statements: seq<Statement>, now: int, date: int -> string): Option<Tables>
    decreases |statements|
  {
    if statements == [] then Some(t)
    else
      match Step(t, statements[0], now, date)
      case None => None
      case Some(next) => Steps(next, statements[1..], now, date)
  }

  /** All of a transaction, or nothing. */
  function Commit(t: Tables, tx: Transaction, date: int -> string): Tables {
    match Steps(t, tx.statements, tx.now, date)
    case None => t
    case Some(after) => after
  }

  function Run(t: Tables, txs: seq<Transaction>, date: int -> string): Tables
    decreases |txs|
  {
    if txs == [] then t
    else Commit(Run(t, txs[..|txs| - 1], date), txs[|txs| - 1], date)
  }

  /** The tables as the migration leaves them: one cycle, registered when its holdout had a name already. */
  function Migrated(at: int): Tables {
    Tables({}, [Cycle(GRANDFATHERED, GRANDFATHERED_START, at, "untouched holdout")], [], [], [], [])
  }

  /** The database as a transaction changes it. */
  class Database {
    var tables: Tables
    const date: int -> string

    constructor (at: int, date: int -> string)
      ensures tables == Migrated(at) && this.date == date
    {
      tables := Migrated(at);
      this.date := date;
    }

    /** BEFORE INSERT: the clock overwrites what was supplied; then the constraints. */
    method InsertRow(r: Row, now: int) returns (taken: bool)
      modifies this
      ensures match Step(old(tables), Insert(r), now, date)
              case None => !taken && tables == old(tables)
              case Some(after) => taken && tables == after
    {
      hide Allows;
      var row := r;
      if row.CycleRow? {
        row := CycleRow(row.cycle.(registeredAt := now));
      } else if row.OpeningRow? {
        row := OpeningRow(row.opening.(openedAt := now));
      }
      taken := Allows(tables, row, date);
      if taken {
        tables := WithRow(tables, row);
      }
    }

    method Transact(tx: Transaction) returns (committed: bool)
      modifies this
      ensures tables == Commit(old(tables), tx, date)
      ensures committed <==> Steps(old(tables), tx.statements, tx.now, date).Some?
    {
      hide Allows, WithRow;
      var start := tables;
      var i := 0;
      assert tx.statements[0..] == tx.statements;
      while i < |tx.statements|
        invariant i <= |tx.statements|
        invariant Steps(tables, tx.statements[i..], tx.now, date) == Steps(start, tx.statements, tx.now, date)
      {
        var taken := true;
        assert tx.statements[i..][1..] == tx.statements[i + 1..];
        match tx.statements[i] {
          case RecordStudy(study) =>
            tables := tables.(studies := tables.studies + {study});
          case Insert(row) =>
            taken := InsertRow(row, tx.now);
          case Change(table, picked) =>
            taken := !exists k :: k in picked && k < Count(tables, table);
        }
        if !taken {
          tables := start;
          return false;
        }
        i := i + 1;
      }
      return true;
    }
  }
}
