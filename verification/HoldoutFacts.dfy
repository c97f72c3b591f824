/**
 * What the holdout tables keep over any history of transactions, whatever values the
 * statements supply and whatever the clock does.
 */
module HoldoutFacts {
  import opened Wrappers
  import opened Text
  import opened Holdout

  // ---- The invariant -------------------------------------------------------

  ghost predicate CyclesKept(t: Tables, date: int -> string) {
    && (forall i | 0 <= i < |t.cycles| :: CycleChecks(t.cycles[i], date))
    && (forall i, j | 0 <= i < j < |t.cycles| :: t.cycles[i].id != t.cycles[j].id && t.cycles[i].start != t.cycles[j].start)
  }

  ghost predicate PacketsKept(t: Tables) {
    && (forall i | 0 <= i < |t.packets| :: PacketChecks(t.packets[i]) && HasCycle(t, t.packets[i].cycle))
    && (forall i, j | 0 <= i < j < |t.packets| :: t.packets[i].hash != t.packets[j].hash)
  }

  ghost predicate OpeningKept(t: Tables, o: Opening) {
    OpeningChecks(o) && HasCycleStart(t, o.cycle, o.start) && HasPacket(t, o.packet, o.status)
  }

  ghost predicate OpeningsKept(t: Tables) {
    && (forall i | 0 <= i < |t.openings| :: OpeningKept(t, t.openings[i]))
    && (forall i, j | 0 <= i < j < |t.openings| ::
          t.openings[i].cycle != t.openings[j].cycle && !Overlap(t.openings[i], t.openings[j]))
  }

  ghost predicate ValidationsKept(t: Tables) {
    && (forall i | 0 <= i < |t.validations| ::
          ValidationChecks(t.validations[i]) && HasOpening(t, t.validations[i].cycle, t.validations[i].packet))
    && (forall i, j | 0 <= i < j < |t.validations| ::
          t.validations[i].hash != t.validations[j].hash && t.validations[i].cycle != t.validations[j].cycle)
  }

  ghost predicate CandidatesKept(t: Tables) {
    && (forall i | 0 <= i < |t.candidates| ::
          CandidateChecks(t.candidates[i]) && t.candidates[i].study in t.studies && HasValidation(t, t.candidates[i].evidence))
    && (forall i, j | 0 <= i < j < |t.candidates| :: !SameCandidate(t.candidates[i], t.candidates[j]))
  }

  ghost predicate Kept(t: Tables, date: int -> string) {
    CyclesKept(t, date) && PacketsKept(t) && OpeningsKept(t) && ValidationsKept(t) && CandidatesKept(t)
  }

  /** Every table keeps its rows, as they are and where they are. */
  predicate Extends(t: Tables, after: Tables) {
    && t.studies <= after.studies && t.cycles <= after.cycles && t.packets <= after.packets
    && t.openings <= after.openings && t.validations <= after.validations && t.candidates <= after.candidates
  }

  /** Rows added carry the clock's instant, whatever was supplied. */
  ghost predicate Stamped(t: Tables, after: Tables, now: int) {
    && (forall i | |t.cycles| <= i < |after.cycles| :: after.cycles[i].registeredAt == now)
    && (forall i | |t.openings| <= i < |after.openings| :: after.openings[i].openedAt == now)
  }

  // ---- Tables a statement leaves alone --------------------------------------

  /** A key once there stays there. */
  lemma KeysSurvive(t: Tables, after: Tables)
    requires Extends(t, after)
    ensures forall id | HasCycle(t, id) :: HasCycle(after, id)
    ensures forall id, start | HasCycleStart(t, id, start) :: HasCycleStart(after, id, start)
    ensures forall hash, status | HasPacket(t, hash, status) :: HasPacket(after, hash, status)
    ensures forall cycle, packet | HasOpening(t, cycle, packet) :: HasOpening(after, cycle, packet)
    ensures forall hash | HasValidation(t, hash) :: HasValidation(after, hash)
  {
    forall id | HasCycle(t, id) ensures HasCycle(after, id) {
      var i :| 0 <= i < |t.cycles| && t.cycles[i].id == id;
      assert after.cycles[i] == t.cycles[i];
    }
    forall id, start | HasCycleStart(t, id, start) ensures HasCycleStart(after, id, start) {
      var i :| 0 <= i < |t.cycles| && t.cycles[i].id == id && t.cycles[i].start == start;
      assert after.cycles[i] == t.cycles[i];
    }
    forall hash, status | HasPacket(t, hash, status) ensures HasPacket(after, hash, status) {
      var i :| 0 <= i < |t.packets| && t.packets[i].hash == hash && t.packets[i].status == status;
      assert after.packets[i] == t.packets[i];
    }
    forall cycle, packet | HasOpening(t, cycle, packet) ensures HasOpening(after, cycle, packet) {
      var i :| 0 <= i < |t.openings| && t.openings[i].cycle == cycle && t.openings[i].packet == packet;
      assert after.openings[i] == t.openings[i];
    }
    forall hash | HasValidation(t, hash) ensures HasValidation(after, hash) {
      var i :| 0 <= i < |t.validations| && t.validations[i].hash == hash;
      assert after.validations[i] == t.validations[i];
    }
  }

  lemma PacketsStay(t: Tables, after: Tables)
    requires PacketsKept(t) && Extends(t, after) && after.packets == t.packets
    ensures PacketsKept(after)
  {
    hide CycleChecks, PacketChecks, OpeningChecks, ValidationChecks, CandidateChecks, Overlap, SameCandidate;
    KeysSurvive(t, after);
    hide HasCycle, HasCycleStart, HasPacket, HasOpening, HasValidation;
  }

  lemma OpeningsStay(t: Tables, after: Tables)
    requires OpeningsKept(t) && Extends(t, after) && after.openings == t.openings
    ensures OpeningsKept(after)
  {
    hide CycleChecks, PacketChecks, OpeningChecks, ValidationChecks, CandidateChecks, Overlap, SameCandidate;
    KeysSurvive(t, after);
    hide HasCycle, HasCycleStart, HasPacket, HasOpening, HasValidation;
  }

  lemma ValidationsStay(t: Tables, after: Tables)
    requires ValidationsKept(t) && Extends(t, after) && after.validations == t.validations
    ensures ValidationsKept(after)
  {
    hide CycleChecks, PacketChecks, OpeningChecks, ValidationChecks, CandidateChecks, Overlap, SameCandidate;
    KeysSurvive(t, after);
    hide HasCycle, HasCycleStart, HasPacket, HasOpening, HasValidation;
  }

  lemma CandidatesStay(t: Tables, after: Tables)
    requires CandidatesKept(t) && Extends(t, after) && after.candidates == t.candidates
    ensures CandidatesKept(after)
  {
    hide CycleChecks, PacketChecks, OpeningChecks, ValidationChecks, CandidateChecks, Overlap, SameCandidate;
    KeysSurvive(t, after);
    hide HasCycle, HasCycleStart, HasPacket, HasOpening, HasValidation;
  }

  // ---- One row -------------------------------------------------------------

  lemma CyclesGrow(t: Tables, c: Cycle, date: int -> string)
    requires CyclesKept(t, date) && AllowsCycle(t, c, date)
    ensures CyclesKept(t.(cycles := t.cycles + [c]), date)
  {
    hide CycleChecks, PacketChecks, OpeningChecks, ValidationChecks, CandidateChecks, Overlap, SameCandidate;
    var after := t.(cycles := t.cycles + [c]);
    KeysSurvive(t, after);
    hide HasCycle, HasCycleStart, HasPacket, HasOpening, HasValidation;
    assert forall i | 0 <= i < |t.cycles| :: after.cycles[i] == t.cycles[i];
  }

  lemma CycleAdded(t: Tables, c: Cycle, date: int -> string)
    requires Kept(t, date) && AllowsCycle(t, c, date)
    ensures Kept(t.(cycles := t.cycles + [c]), date)
  {
    hide CycleChecks;
    var after := t.(cycles := t.cycles + [c]);
    hide CyclesKept, PacketsKept, OpeningsKept, ValidationsKept, CandidatesKept, AllowsCycle;
    CyclesGrow(t, c, date);
    PacketsStay(t, after);
    OpeningsStay(t, after);
    ValidationsStay(t, after);
    CandidatesStay(t, after);
  }

  lemma PacketsGrow(t: Tables, p: Packet)
    requires PacketsKept(t) && AllowsPacket(t, p)
    ensures PacketsKept(t.(packets := t.packets + [p]))
  {
    hide CycleChecks, PacketChecks, OpeningChecks, ValidationChecks, CandidateChecks, Overlap, SameCandidate;
    var after := t.(packets := t.packets + [p]);
    KeysSurvive(t, after);
    hide HasCycle, HasCycleStart, HasPacket, HasOpening, HasValidation;
    assert forall i | 0 <= i < |t.packets| :: after.packets[i] == t.packets[i];
  }

  lemma PacketAdded(t: Tables, p: Packet, date: int -> string)
    requires Kept(t, date) && AllowsPacket(t, p)
    ensures Kept(t.(packets := t.packets + [p]), date)
  {
    hide CycleChecks;
    var after := t.(packets := t.packets + [p]);
    assert CyclesKept(after, date);
    hide CyclesKept, PacketsKept, OpeningsKept, ValidationsKept, CandidatesKept, AllowsPacket;
    PacketsGrow(t, p);
    OpeningsStay(t, after);
    ValidationsStay(t, after);
    CandidatesStay(t, after);
  }

  lemma OpeningsGrow(t: Tables, o: Opening)
    requires OpeningsKept(t) && AllowsOpening(t, o)
    ensures OpeningsKept(t.(openings := t.openings + [o]))
  {
    hide CycleChecks, PacketChecks, OpeningChecks, ValidationChecks, CandidateChecks, Overlap, SameCandidate;
    var after := t.(openings := t.openings + [o]);
    KeysSurvive(t, after);
    hide HasCycle, HasCycleStart, HasPacket, HasOpening, HasValidation;
    assert forall i | 0 <= i < |t.openings| :: after.openings[i] == t.openings[i];
  }

  lemma OpeningAdded(t: Tables, o: Opening, date: int -> string)
    requires Kept(t, date) && AllowsOpening(t, o)
    ensures Kept(t.(openings := t.openings + [o]), date)
  {
    hide CycleChecks;
    var after := t.(openings := t.openings + [o]);
    assert CyclesKept(after, date);
    hide CyclesKept, PacketsKept, OpeningsKept, ValidationsKept, CandidatesKept, AllowsOpening;
    OpeningsGrow(t, o);
    PacketsStay(t, after);
    ValidationsStay(t, after);
    CandidatesStay(t, after);
  }

  lemma ValidationsGrow(t: Tables, v: Validation)
    requires ValidationsKept(t) && AllowsValidation(t, v)
    ensures ValidationsKept(t.(validations := t.validations + [v]))
  {
    hide CycleChecks, PacketChecks, OpeningChecks, ValidationChecks, CandidateChecks, Overlap, SameCandidate;
    var after := t.(validations := t.validations + [v]);
    KeysSurvive(t, after);
    hide HasCycle, HasCycleStart, HasPacket, HasOpening, HasValidation;
    assert forall i | 0 <= i < |t.validations| :: after.validations[i] == t.validations[i];
  }

  lemma ValidationAdded(t: Tables, v: Validation, date: int -> string)
    requires Kept(t, date) && AllowsValidation(t, v)
    ensures Kept(t.(validations := t.validations + [v]), date)
  {
    hide CycleChecks;
    var after := t.(validations := t.validations + [v]);
    assert CyclesKept(after, date);
    hide CyclesKept, PacketsKept, OpeningsKept, ValidationsKept, CandidatesKept, AllowsValidation;
    ValidationsGrow(t, v);
    PacketsStay(t, after);
    OpeningsStay(t, after);
    CandidatesStay(t, after);
  }

  lemma CandidatesGrow(t: Tables, c: Candidate)
    requires CandidatesKept(t) && AllowsCandidate(t, c)
    ensures CandidatesKept(t.(candidates := t.candidates + [c]))
  {
    hide CycleChecks, PacketChecks, OpeningChecks, ValidationChecks, CandidateChecks, Overlap, SameCandidate;
    var after := t.(candidates := t.candidates + [c]);
    KeysSurvive(t, after);
    hide HasCycle, HasCycleStart, HasPacket, HasOpening, HasValidation;
    assert forall i | 0 <= i < |t.candidates| :: after.candidates[i] == t.candidates[i];
  }

  lemma CandidateAdded(t: Tables, c: Candidate, date: int -> string)
    requires Kept(t, date) && AllowsCandidate(t, c)
    ensures Kept(t.(candidates := t.candidates + [c]), date)
  {
    hide CycleChecks;
    var after := t.(candidates := t.candidates + [c]);
    assert CyclesKept(after, date);
    hide CyclesKept, PacketsKept, OpeningsKept, ValidationsKept, CandidatesKept, AllowsCandidate;
    CandidatesGrow(t, c);
    PacketsStay(t, after);
    OpeningsStay(t, after);
    ValidationsStay(t, after);
  }

  // ---- Statements and transactions -----------------------------------------

  lemma StepKeeps(t: Tables, s: Statement, now: int, date: int -> string)
    requires Kept(t, date)
    ensures match Step(t, s, now, date)
            case None => true
            case Some(after) => Kept(after, date) && Extends(t, after) && Stamped(t, after, now)
  {
    hide Kept, AllowsCycle, AllowsPacket, AllowsOpening, AllowsValidation, AllowsCandidate;
    match s
    case RecordStudy(study) =>
      StudyAdded(t, study, date);
    case Change(_, _) =>
    case Insert(row) =>
      var stamped := StampedRow(row, now);
      if Allows(t, stamped, date) {
        match stamped
        case CycleRow(c) => CycleAdded(t, c, date);
        case PacketRow(p) => PacketAdded(t, p, date);
        case OpeningRow(o) => OpeningAdded(t, o, date);
        case ValidationRow(v) => ValidationAdded(t, v, date);
        case CandidateRow(c) => CandidateAdded(t, c, date);
      }
  }

  lemma StudyAdded(t: Tables, study: nat, date: int -> string)
    requires Kept(t, date)
    ensures Kept(t.(studies := t.studies + {study}), date)
  {
    hide CycleChecks, PacketChecks, OpeningChecks, ValidationChecks, CandidateChecks, Overlap, SameCandidate;
    KeysSurvive(t, t.(studies := t.studies + {study}));
    hide HasCycle, HasCycleStart, HasPacket, HasOpening, HasValidation;
  }

  lemma {:induction false} StepsKeep(t: Tables, statements: seq<Statement>, now: int, date: int -> string)
    requires Kept(t, date)
    ensures match Steps(t, statements, now, date)
            case None => true
            case Some(after) => Kept(after, date) && Extends(t, after) && Stamped(t, after, now)
    decreases |statements|
  {
    hide Kept, Step;
    if statements != [] {
      StepKeeps(t, statements[0], now, date);
      match Step(t, statements[0], now, date)
      case None =>
      case Some(next) =>
        StepsKeep(next, statements[1..], now, date);
    }
  }

  lemma CommitKeeps(t: Tables, tx: Transaction, date: int -> string)
    requires Kept(t, date)
    ensures var after := Commit(t, tx, date); Kept(after, date) && Extends(t, after) && Stamped(t, after, tx.now)
  {
    StepsKeep(t, tx.statements, tx.now, date);
    hide Kept, Steps;
  }

  lemma {:induction false} RunKeeps(t: Tables, txs: seq<Transaction>, date: int -> string)
    requires Kept(t, date)
    ensures Kept(Run(t, txs, date), date) && Extends(t, Run(t, txs, date))
    decreases |txs|
  {
    hide Kept, Commit;
    if txs != [] {
      RunKeeps(t, txs[..|txs| - 1], date);
      CommitKeeps(Run(t, txs[..|txs| - 1], date), txs[|txs| - 1], date);
    }
  }

  /** What the migration leaves behind: its own insert must have passed the checks. */
  lemma MigratedKept(at: int, date: int -> string)
    requires date(GRANDFATHERED_START) == "2026-08-20"
    ensures Kept(Migrated(at), date)
  {
    assert "cycle-" + "2026-08-20" == GRANDFATHERED;
    assert NotBlank("untouched holdout") by { assert "untouched holdout"[0] == 'u'; }
  }

  // ---- Main results --------------------------------------------------------

  predicate Covers(o: Opening, instant: int) {
    o.start <= instant < o.end
  }

  /**
   * One shot, for every history: no instant lies in two opened holdouts, no cycle is opened
   * or validated twice, and outside the grandfathered cycle every opened holdout was
   * registered before it began and had ended when it was opened.
   */
  lemma {:induction false} OneShot(at: int, txs: seq<Transaction>, date: int -> string)
    requires date(GRANDFATHERED_START) == "2026-08-20"
    ensures var t := Run(Migrated(at), txs, date);
      && (forall i, j, instant | 0 <= i < j < |t.openings| :: !(Covers(t.openings[i], instant) && Covers(t.openings[j], instant)))
      && (forall i, j | 0 <= i < j < |t.openings| :: t.openings[i].cycle != t.openings[j].cycle)
      && (forall i, j | 0 <= i < j < |t.validations| :: t.validations[i].cycle != t.validations[j].cycle)
      && (forall i | 0 <= i < |t.openings| && t.openings[i].cycle != GRANDFATHERED ::
            exists k :: 0 <= k < |t.cycles| && t.cycles[k].id == t.openings[i].cycle
                        && t.cycles[k].registeredAt < t.openings[i].start < t.openings[i].end <= t.openings[i].openedAt)
  {
    MigratedKept(at, date);
    RunKeeps(Migrated(at), txs, date);
    var t := Run(Migrated(at), txs, date);
    hide Run, PacketsKept, CandidatesKept;
    forall i, j, instant | 0 <= i < j < |t.openings|
      ensures !(Covers(t.openings[i], instant) && Covers(t.openings[j], instant)) {
      assert !Overlap(t.openings[i], t.openings[j]);
    }
    forall i | 0 <= i < |t.openings| && t.openings[i].cycle != GRANDFATHERED
      ensures exists k :: 0 <= k < |t.cycles| && t.cycles[k].id == t.openings[i].cycle
                          && t.cycles[k].registeredAt < t.openings[i].start < t.openings[i].end <= t.openings[i].openedAt {
      OpeningInTime(t, i, date);
    }
  }

  lemma OpeningInTime(t: Tables, i: nat, date: int -> string)
    requires Kept(t, date) && i < |t.openings| && t.openings[i].cycle != GRANDFATHERED
    ensures exists k :: 0 <= k < |t.cycles| && t.cycles[k].id == t.openings[i].cycle
                        && t.cycles[k].registeredAt < t.openings[i].start < t.openings[i].end <= t.openings[i].openedAt
  {
    hide PacketsKept, ValidationsKept, CandidatesKept, HasPacket, IsCycleId;
    var o := t.openings[i];
    assert OpeningKept(t, o);
    var k :| 0 <= k < |t.cycles| && t.cycles[k].id == o.cycle && t.cycles[k].start == o.start;
    assert CycleChecks(t.cycles[k], date);
  }

  /** Candidate, validation, opening, packet: each row names the next, and the packet is AUTHORIZED. */
  ghost predicate Traced(t: Tables, c: Candidate) {
    exists v, o, p ::
      && 0 <= v < |t.validations| && 0 <= o < |t.openings| && 0 <= p < |t.packets|
      && t.validations[v].hash == c.evidence
      && t.openings[o].cycle == t.validations[v].cycle && t.openings[o].packet == t.validations[v].packet
      && t.packets[p].hash == t.openings[o].packet && t.packets[p].status == "AUTHORIZED"
  }

  /** Every candidate state traces to an AUTHORIZED packet, by one validation, one opening and one packet. */
  lemma {:induction false} CandidatesTraced(at: int, txs: seq<Transaction>, date: int -> string)
    requires date(GRANDFATHERED_START) == "2026-08-20"
    ensures var t := Run(Migrated(at), txs, date);
      forall i | 0 <= i < |t.candidates| :: Traced(t, t.candidates[i])
  {
    MigratedKept(at, date);
    RunKeeps(Migrated(at), txs, date);
    var t := Run(Migrated(at), txs, date);
    hide Run;
    forall i | 0 <= i < |t.candidates| ensures Traced(t, t.candidates[i]) {
      CandidateTraced(t, i, date);
    }
  }

  lemma CandidateTraced(t: Tables, i: nat, date: int -> string)
    requires Kept(t, date) && i < |t.candidates|
    ensures Traced(t, t.candidates[i])
  {
    hide CyclesKept, PacketsKept, HasCycleStart, IsHash, NotBlank;
    assert HasValidation(t, t.candidates[i].evidence);
    var v :| 0 <= v < |t.validations| && t.validations[v].hash == t.candidates[i].evidence;
    assert HasOpening(t, t.validations[v].cycle, t.validations[v].packet);
    var o :| 0 <= o < |t.openings| && t.openings[o].cycle == t.validations[v].cycle && t.openings[o].packet == t.validations[v].packet;
    assert OpeningKept(t, t.openings[o]);
    var p :| 0 <= p < |t.packets| && t.packets[p].hash == t.openings[o].packet && t.packets[p].status == t.openings[o].status;
  }

  /** After any further history an opened holdout is still there, and nothing may open any part of it again. */
  lemma {:induction false} NeverOpenedAgain(t: Tables, i: nat, txs: seq<Transaction>, again: Opening, now: int,
        date: int -> string)
    requires Kept(t, date) && i < |t.openings|
    requires again.cycle == t.openings[i].cycle || Overlap(t.openings[i], again)
    ensures var later := Run(t, txs, date);
      && i < |later.openings| && later.openings[i] == t.openings[i]
      && Step(later, Insert(OpeningRow(again)), now, date) == None
  {
    RunKeeps(t, txs, date);
    var later := Run(t, txs, date);
    hide Run, Kept, OpeningChecks, HasCycleStart, HasPacket;
    assert later.openings[i] == t.openings[i];
    var stamped := again.(openedAt := now);
    assert later.openings[i].cycle == stamped.cycle || Overlap(later.openings[i], stamped);
    assert !AllowsOpening(later, stamped);
    assert StampedRow(OpeningRow(again), now) == OpeningRow(stamped);
  }

  ghost predicate BroughtCycle(at: int, txs: seq<Transaction>, date: int -> string, n: nat, i: nat)
    requires n < |txs|
  {
    |Run(Migrated(at), txs[..n], date).cycles| <= i < |Run(Migrated(at), txs[..n + 1], date).cycles|
  }

  ghost predicate BroughtOpening(at: int, txs: seq<Transaction>, date: int -> string, n: nat, i: nat)
    requires n < |txs|
  {
    |Run(Migrated(at), txs[..n], date).openings| <= i < |Run(Migrated(at), txs[..n + 1], date).openings|
  }

  /**
   * Each cycle but the migrated one bears the instant of the transaction that brought it,
   * whatever the statement supplied.
   */
  lemma {:induction false} CyclesStampedByTheClock(at: int, txs: seq<Transaction>, date: int -> string, i: nat)
    requires date(GRANDFATHERED_START) == "2026-08-20" && 1 <= i < |Run(Migrated(at), txs, date).cycles|
    ensures exists n :: 0 <= n < |txs| && BroughtCycle(at, txs, date, n, i)
                        && Run(Migrated(at), txs, date).cycles[i].registeredAt == txs[n].now
    decreases |txs|
  {
    hide Kept, Commit;
    var n := |txs| - 1;
    var before := Run(Migrated(at), txs[..n], date);
    MigratedKept(at, date);
    RunKeeps(Migrated(at), txs[..n], date);
    CommitKeeps(before, txs[n], date);
    assert txs[..n + 1] == txs;
    if i < |before.cycles| {
      CyclesStampedByTheClock(at, txs[..n], date, i);
      var k :| 0 <= k < n && BroughtCycle(at, txs[..n], date, k, i) && before.cycles[i].registeredAt == txs[..n][k].now;
      assert txs[..n][..k] == txs[..k] && txs[..n][..k + 1] == txs[..k + 1];
      assert BroughtCycle(at, txs, date, k, i);
    } else {
      assert BroughtCycle(at, txs, date, n, i);
    }
  }

  /** So does each opening. */
  lemma {:induction false} OpeningsStampedByTheClock(at: int, txs: seq<Transaction>, date: int -> string, i: nat)
    requires date(GRANDFATHERED_START) == "2026-08-20" && i < |Run(Migrated(at), txs, date).openings|
    ensures exists n :: 0 <= n < |txs| && BroughtOpening(at, txs, date, n, i)
                        && Run(Migrated(at), txs, date).openings[i].openedAt == txs[n].now
    decreases |txs|
  {
    hide Kept, Commit;
    var n := |txs| - 1;
    var before := Run(Migrated(at), txs[..n], date);
    MigratedKept(at, date);
    RunKeeps(Migrated(at), txs[..n], date);
    CommitKeeps(before, txs[n], date);
    assert txs[..n + 1] == txs;
    if i < |before.openings| {
      OpeningsStampedByTheClock(at, txs[..n], date, i);
      var k :| 0 <= k < n && BroughtOpening(at, txs[..n], date, k, i) && before.openings[i].openedAt == txs[..n][k].now;
      assert txs[..n][..k] == txs[..k] && txs[..n][..k + 1] == txs[..k + 1];
      assert BroughtOpening(at, txs, date, k, i);
    } else {
      assert BroughtOpening(at, txs, date, n, i);
    }
  }

  // ---- What no constraint says ---------------------------------------------

  /** Every opening is of the cycle its packet was written for. */
  ghost predicate OwnCycles(t: Tables) {
    forall i, k | 0 <= i < |t.openings| && 0 <= k < |t.packets| && t.packets[k].hash == t.openings[i].packet ::
      t.packets[k].cycle == t.openings[i].cycle
  }

  /** An accepted opening keeps this exactly when the packet it names was written for its cycle. */
  lemma {:induction false} OpeningKeepsOwnCycle(t: Tables, o: Opening, k: nat, date: int -> string)
    requires Kept(t, date) && OwnCycles(t) && AllowsOpening(t, o)
    requires k < |t.packets| && t.packets[k].hash == o.packet
    ensures OwnCycles(t.(openings := t.openings + [o])) <==> t.packets[k].cycle == o.cycle
  {
    hide CyclesKept, ValidationsKept, CandidatesKept, OpeningsKept, PacketChecks, HasCycle, AllowsOpening;
    var after := t.(openings := t.openings + [o]);
    assert after.openings[|t.openings|] == o;
    if t.packets[k].cycle == o.cycle {
      forall i, j | 0 <= i < |after.openings| && 0 <= j < |t.packets| && t.packets[j].hash == after.openings[i].packet
        ensures t.packets[j].cycle == after.openings[i].cycle {
        if i < |t.openings| {
          assert after.openings[i] == t.openings[i];
        } else {
          assert j == k;
        }
      }
    }
  }

  const NEXT_CYCLE := "cycle-2026-08-21"

  /** A study, a second cycle, a packet written for it, and an opening of the first cycle under that packet. */
  function StrayTransaction(hash: string): Transaction {
    Transaction([RecordStudy(7),
                 Insert(CycleRow(Cycle(NEXT_CYCLE, GRANDFATHERED_START + DAY, 0, "next"))),
                 Insert(PacketRow(Packet(hash, 1, 7, NEXT_CYCLE, "AUTHORIZED", Object))),
                 Insert(OpeningRow(Opening(GRANDFATHERED, GRANDFATHERED_START, GRANDFATHERED_START + 1, hash,
                                           "AUTHORIZED", "owner", 0)))],
                GRANDFATHERED_START + 1)
  }

  /** The constraints take an opening of one cycle under a packet written for another. */
  lemma {:induction false} OpeningMayStray(at: int, hash: string, date: int -> string)
    requires IsHash(hash)
    requires date(GRANDFATHERED_START) == "2026-08-20" && date(GRANDFATHERED_START + DAY) == "2026-08-21"
    ensures !OwnCycles(Run(Migrated(at), [StrayTransaction(hash)], date))
  {
    var now := GRANDFATHERED_START + 1;
    var ss := StrayTransaction(hash).statements;
    var t1 := Migrated(at).(studies := Migrated(at).studies + {7});
    var c := Cycle(NEXT_CYCLE, GRANDFATHERED_START + DAY, now, "next");
    var t2 := t1.(cycles := t1.cycles + [c]);
    var p := Packet(hash, 1, 7, NEXT_CYCLE, "AUTHORIZED", Object);
    var t3 := t2.(packets := t2.packets + [p]);
    var o := Opening(GRANDFATHERED, GRANDFATHERED_START, GRANDFATHERED_START + 1, hash, "AUTHORIZED", "owner", now);
    var t4 := t3.(openings := t3.openings + [o]);
    StrayCycle(t1, c, date);
    assert t2.cycles[1] == c && t2.cycles[0].id == GRANDFATHERED;
    assert HasCycle(t2, NEXT_CYCLE) && HasCycleStart(t3, GRANDFATHERED, GRANDFATHERED_START);
    assert t3.packets[0] == p && HasPacket(t3, hash, "AUTHORIZED");
    assert NotBlank("owner") by { assert "owner"[0] == 'o'; }
    assert AllowsPacket(t2, p) && AllowsOpening(t3, o);
    hide AllowsCycle, AllowsPacket, AllowsOpening, HasCycle, HasCycleStart, HasPacket;
    assert Step(Migrated(at), ss[0], now, date) == Some(t1);
    assert Step(t1, ss[1], now, date) == Some(t2);
    assert Step(t2, ss[2], now, date) == Some(t3);
    assert Step(t3, ss[3], now, date) == Some(t4);
    hide Step;
    StepsFour(Migrated(at), t1, t2, t3, t4, ss, now, date);
    assert [StrayTransaction(hash)][..0] == [];
    assert t4.packets[0].hash == t4.openings[0].packet && t4.packets[0].cycle != t4.openings[0].cycle;
  }

  lemma StrayCycle(t: Tables, c: Cycle, date: int -> string)
    requires |t.cycles| == 1 && t.cycles[0].id == GRANDFATHERED && t.cycles[0].start == GRANDFATHERED_START
    requires c == Cycle(NEXT_CYCLE, GRANDFATHERED_START + DAY, c.registeredAt, "next") && c.registeredAt < c.start
    requires date(GRANDFATHERED_START + DAY) == "2026-08-21"
    ensures AllowsCycle(t, c, date)
  {
    assert NotBlank("next") by { assert "next"[0] == 'n'; }
    assert "cycle-" + "2026-08-21" == NEXT_CYCLE;
    assert GRANDFATHERED[15] != NEXT_CYCLE[15];
  }

  lemma StepsFour(t: Tables, t1: Tables, t2: Tables, t3: Tables, t4: Tables, ss: seq<Statement>, now: int,
                  date: int -> string)
    requires |ss| == 4
    requires Step(t, ss[0], now, date) == Some(t1) && Step(t1, ss[1], now, date) == Some(t2)
    requires Step(t2, ss[2], now, date) == Some(t3) && Step(t3, ss[3], now, date) == Some(t4)
    ensures Steps(t, ss, now, date) == Some(t4)
  {
    hide Step;
    assert ss[3..][1..] == [] && ss[2..][1..] == ss[3..] && ss[1..][1..] == ss[2..];
    assert Steps(t4, [], now, date) == Some(t4);
    assert Steps(t3, ss[3..], now, date) == Some(t4);
    assert Steps(t2, ss[2..], now, date) == Some(t4);
    assert Steps(t1, ss[1..], now, date) == Some(t4);
  }
}
