/**
 * Which statements the holdout tables take: each kind of row exactly when it meets its own
 * conditions and the rows it refers to are there. And a cycle whose owner keeps to them runs
 * through, from its registration to a candidate's state.
 */
module HoldoutTable {
  import opened Wrappers
  import opened Text
  import opened Holdout
  import opened HoldoutFacts

  predicate HexDigit(c: char) {
    '0' <= c <= '9' || 'a' <= c <= 'f'
  }

  predicate Sha(s: string) {
    |s| == 64 && forall i | 0 <= i < 64 :: HexDigit(s[i])
  }

  predicate Digits(s: string) {
    forall i | 0 <= i < |s| :: '0' <= s[i] <= '9'
  }

  /** `cycle-` and a date of four, two and two digits. */
  ghost predicate CycleName(s: string) {
    exists y: string, m: string, d: string ::
      |y| == 4 && |m| == 2 && |d| == 2 && Digits(y) && Digits(m) && Digits(d)
      && s == "cycle-" + y + "-" + m + "-" + d
  }

  /** The start of a day. */
  ghost predicate Midnight(t: int) {
    exists n: int :: t == n * 86_400_000_000
  }

  lemma ShaIs(s: string)
    ensures IsHash(s) <==> Sha(s)
  {
  }

  lemma CycleNameIs(s: string)
    ensures IsCycleId(s) <==> CycleName(s)
  {
    if IsCycleId(s) {
      var y, m, d := s[6..10], s[11..13], s[14..];
      assert forall i | 6 <= i < 16 && i != 10 && i != 13 :: '0' <= s[i] <= '9';
      hide IsCycleId;
      SixParts(s);
      assert Digits(y) && Digits(m) && Digits(d);
    }
    if CycleName(s) {
      var y: string, m: string, d: string :|
        |y| == 4 && |m| == 2 && |d| == 2 && Digits(y) && Digits(m) && Digits(d)
        && s == "cycle-" + y + "-" + m + "-" + d;
      NamedParts(s, y, m, d);
    }
  }

  lemma SixParts(s: string)
    requires |s| == 16 && s[..6] == "cycle-" && s[10] == '-' && s[13] == '-'
    ensures s == "cycle-" + s[6..10] + "-" + s[11..13] + "-" + s[14..]
  {
    assert s[10..11] == "-" && s[13..14] == "-";
    assert s == s[..6] + s[6..10] + s[10..11] + s[11..13] + s[13..14] + s[14..];
  }

  lemma NamedParts(s: string, y: string, m: string, d: string)
    requires |y| == 4 && |m| == 2 && |d| == 2 && Digits(y) && Digits(m) && Digits(d)
    requires s == "cycle-" + y + "-" + m + "-" + d
    ensures IsCycleId(s)
  {
    assert s[..6] == "cycle-" && s[6..10] == y && s[11..13] == m && s[14..] == d;
    forall i | 6 <= i < 16 && i != 10 && i != 13 ensures IsDigit(s[i]) {
      assert s[i] == if i < 10 then y[i - 6] else if i < 13 then m[i - 11] else d[i - 14];
    }
  }

  lemma MidnightIs(t: int)
    ensures t % DAY == 0 <==> Midnight(t)
  {
    if t % DAY == 0 {
      assert t == (t / DAY) * 86_400_000_000;
    }
  }

  ghost predicate Written(s: string) {
    exists i :: 0 <= i < |s| && s[i] != ' '
  }

  // ---- Taken, exactly ------------------------------------------------------

  /** A row stays out, and with it its whole transaction; or it is the one row more of its table. */
  ghost predicate TakenAs(r: Option<Tables>, taken: bool, after: Tables) {
    r == if taken then Some(after) else None
  }

  /** A cycle is taken exactly when its name is that of its own midnight, still to come, and neither is there yet. */
  lemma {:induction false} CycleTaken(t: Tables, c: Cycle, now: int, date: int -> string)
    ensures TakenAs(Step(t, Insert(CycleRow(c)), now, date),
      && CycleName(c.id) && c.id == "cycle-" + date(c.start) && Midnight(c.start) && Written(c.note)
      && (now < c.start || c.id == "cycle-2026-08-20")
      && forall i | 0 <= i < |t.cycles| :: t.cycles[i].id != c.id && t.cycles[i].start != c.start,
      t.(cycles := t.cycles + [c.(registeredAt := now)]))
  {
    CycleNameIs(c.id);
    MidnightIs(c.start);
    hide IsCycleId, CycleName, Midnight;
  }

  /** A packet is taken exactly when it is new, complete, and of a study and cycle that are there. */
  lemma {:induction false} PacketTaken(t: Tables, p: Packet, now: int, date: int -> string)
    ensures TakenAs(Step(t, Insert(PacketRow(p)), now, date),
      && Sha(p.hash) && (p.status == "DRAFT" || p.status == "AUTHORIZED") && p.identity == Object
      && (forall i | 0 <= i < |t.packets| :: t.packets[i].hash != p.hash && t.packets[i].uuid != p.uuid)
      && p.study in t.studies && (exists i :: 0 <= i < |t.cycles| && t.cycles[i].id == p.cycle),
      t.(packets := t.packets + [p]))
  {
    ShaIs(p.hash);
    hide IsHash, Sha;
  }

  predicate Within(o: Opening, instant: int) {
    o.start <= instant && instant < o.end
  }

  /** No instant of the holdout has been opened before. */
  ghost predicate Untouched(t: Tables, start: int, end: int) {
    forall i, instant | 0 <= i < |t.openings| && start <= instant < end :: !Within(t.openings[i], instant)
  }

  lemma UntouchedIs(t: Tables, o: Opening)
    requires o.start < o.end && forall i | 0 <= i < |t.openings| :: t.openings[i].start < t.openings[i].end
    ensures Untouched(t, o.start, o.end) <==> forall i | 0 <= i < |t.openings| :: !Overlap(t.openings[i], o)
  {
    forall i | 0 <= i < |t.openings| && Overlap(t.openings[i], o) ensures !Untouched(t, o.start, o.end) {
      var instant := if t.openings[i].start < o.start then o.start else t.openings[i].start;
      assert Within(t.openings[i], instant);
    }
  }

  /**
   * An opening is taken exactly when its span is over, no instant of it was opened before nor
   * its cycle, the cycle is there with that very start, and its packet is there and AUTHORIZED.
   */
  lemma {:induction false} OpeningTaken(t: Tables, o: Opening, now: int, date: int -> string)
    requires Kept(t, date)
    ensures TakenAs(Step(t, Insert(OpeningRow(o)), now, date),
      && o.status == "AUTHORIZED" && Written(o.openedBy) && o.start < o.end && o.end <= now
      && (forall i | 0 <= i < |t.openings| :: t.openings[i].cycle != o.cycle) && Untouched(t, o.start, o.end)
      && (exists i :: 0 <= i < |t.cycles| && t.cycles[i].id == o.cycle && t.cycles[i].start == o.start)
      && (exists i :: 0 <= i < |t.packets| && t.packets[i].hash == o.packet && t.packets[i].status == "AUTHORIZED"),
      t.(openings := t.openings + [o.(openedAt := now)]))
  {
    hide Kept, AllowsOpening, Untouched, Written;
    SpansKept(t, date);
    OpeningAllowed(t, o.(openedAt := now));
    assert StampedRow(OpeningRow(o), now) == OpeningRow(o.(openedAt := now));
  }

  lemma SpansKept(t: Tables, date: int -> string)
    requires Kept(t, date)
    ensures forall i | 0 <= i < |t.openings| :: t.openings[i].start < t.openings[i].end
  {
    hide CyclesKept, PacketsKept, ValidationsKept, CandidatesKept, HasCycleStart, HasPacket;
    forall i | 0 <= i < |t.openings| ensures t.openings[i].start < t.openings[i].end {
      assert OpeningKept(t, t.openings[i]);
    }
  }

  lemma OpeningAllowed(t: Tables, o: Opening)
    requires forall i | 0 <= i < |t.openings| :: t.openings[i].start < t.openings[i].end
    ensures AllowsOpening(t, o) <==>
      && o.status == "AUTHORIZED" && Written(o.openedBy) && o.start < o.end && o.end <= o.openedAt
      && (forall i | 0 <= i < |t.openings| :: t.openings[i].cycle != o.cycle) && Untouched(t, o.start, o.end)
      && (exists i :: 0 <= i < |t.cycles| && t.cycles[i].id == o.cycle && t.cycles[i].start == o.start)
      && (exists i :: 0 <= i < |t.packets| && t.packets[i].hash == o.packet && t.packets[i].status == "AUTHORIZED")
  {
    assert HasCycleStart(t, o.cycle, o.start) <==>
           exists i :: 0 <= i < |t.cycles| && t.cycles[i].id == o.cycle && t.cycles[i].start == o.start;
    assert HasPacket(t, o.packet, "AUTHORIZED") <==>
           exists i :: 0 <= i < |t.packets| && t.packets[i].hash == o.packet && t.packets[i].status == "AUTHORIZED";
    hide HasCycleStart, HasPacket;
    if o.start < o.end {
      UntouchedIs(t, o);
    }
    hide Untouched, Overlap;
  }

  /** A validation is taken exactly when it is the first of its cycle and of that cycle's own opening and packet. */
  lemma {:induction false} ValidationTaken(t: Tables, v: Validation, now: int, date: int -> string)
    ensures TakenAs(Step(t, Insert(ValidationRow(v)), now, date),
      && Sha(v.hash) && Sha(v.dataset) && v.identity == Object
      && (forall i | 0 <= i < |t.validations| :: t.validations[i].hash != v.hash && t.validations[i].cycle != v.cycle)
      && (exists i :: 0 <= i < |t.openings| && t.openings[i].cycle == v.cycle && t.openings[i].packet == v.packet),
      t.(validations := t.validations + [v]))
  {
    ShaIs(v.hash);
    ShaIs(v.dataset);
    hide IsHash, Sha;
  }

  /** A candidate's state is taken exactly when its study and validation are there and the validation has not judged it before. */
  lemma {:induction false} CandidateTaken(t: Tables, c: Candidate, now: int, date: int -> string)
    ensures TakenAs(Step(t, Insert(CandidateRow(c)), now, date),
      && (c.state == "INCUBATING" || c.state == "HOLDOUT_FAILED_REJECTED") && c.reasons == Array
      && (forall i | 0 <= i < |t.candidates| ::
            t.candidates[i].study != c.study || t.candidates[i].trial != c.trial || t.candidates[i].evidence != c.evidence)
      && c.study in t.studies && (exists i :: 0 <= i < |t.validations| && t.validations[i].hash == c.evidence),
      t.(candidates := t.candidates + [c]))
  {
  }

  /** An UPDATE or DELETE is taken exactly when it picks no row, and then does nothing. */
  lemma {:induction false} ChangeTaken(t: Tables, table: Table, picked: set<nat>, now: int, date: int -> string)
    ensures var n := match table
              case CycleTable => |t.cycles|
              case PacketTable => |t.packets|
              case OpeningTable => |t.openings|
              case ValidationTable => |t.validations|
              case CandidateTable => |t.candidates|;
      TakenAs(Step(t, Change(table, picked), now, date), forall i | i in picked :: n <= i, t)
  {
  }

  // ---- A whole cycle -------------------------------------------------------

  /** The owner's steps: before the holdout begins, a cycle and an authorized packet; after it ended, the rest. */
  function WholeCycle(c: Cycle, p: Packet, o: Opening, v: Validation, k: Candidate, early: int, late: int): seq<Transaction> {
    [ Transaction([Insert(CycleRow(c)), Insert(PacketRow(p))], early),
      Transaction([Insert(OpeningRow(o))], late),
      Transaction([Insert(ValidationRow(v)), Insert(CandidateRow(k))], late) ]
  }

  /** They belong together: one cycle, one study, one packet, one validation, each named as it should be. */
  ghost predicate Coherent(c: Cycle, p: Packet, o: Opening, v: Validation, k: Candidate, early: int, late: int, date: int -> string) {
    && CycleName(c.id) && c.id == "cycle-" + date(c.start) && Midnight(c.start) && Written(c.note) && early < c.start
    && Sha(p.hash) && p.status == "AUTHORIZED" && p.identity == Object && p.cycle == c.id
    && o.cycle == c.id && o.start == c.start < o.end <= late && o.packet == p.hash && o.status == "AUTHORIZED" && Written(o.openedBy)
    && v.cycle == c.id && v.packet == p.hash && Sha(v.hash) && Sha(v.dataset) && v.identity == Object
    && k.study == p.study && k.evidence == v.hash && k.state == "INCUBATING" && k.reasons == Array
  }

  /** What they bring is new. */
  ghost predicate New(t: Tables, c: Cycle, p: Packet, o: Opening, v: Validation, k: Candidate) {
    && p.study in t.studies
    && (forall i | 0 <= i < |t.cycles| :: t.cycles[i].id != c.id && t.cycles[i].start != c.start)
    && (forall i | 0 <= i < |t.packets| :: t.packets[i].hash != p.hash && t.packets[i].uuid != p.uuid)
    && Untouched(t, o.start, o.end)
    && (forall i | 0 <= i < |t.validations| :: t.validations[i].hash != v.hash)
  }

  /** A cycle never registered was never opened, validated or judged by this validation. */
  lemma NothingOfNewCycle(t: Tables, id: string, hash: string, date: int -> string)
    requires Kept(t, date)
    requires forall i | 0 <= i < |t.cycles| :: t.cycles[i].id != id
    requires forall i | 0 <= i < |t.validations| :: t.validations[i].hash != hash
    ensures forall i | 0 <= i < |t.openings| :: t.openings[i].cycle != id
    ensures forall i | 0 <= i < |t.validations| :: t.validations[i].cycle != id
    ensures forall i | 0 <= i < |t.candidates| :: t.candidates[i].evidence != hash
  {
    forall i | 0 <= i < |t.openings| ensures t.openings[i].cycle != id {
      assert OpeningKept(t, t.openings[i]);
    }
  }

  lemma OneStep(t: Tables, s: Statement, now: int, date: int -> string)
    ensures Steps(t, [s], now, date) == Step(t, s, now, date)
  {
    hide Step;
    assert [s][1..] == [];
    if Step(t, s, now, date).Some? {
      assert Steps(Step(t, s, now, date).value, [], now, date) == Step(t, s, now, date);
    }
  }

  lemma TwoSteps(t: Tables, s: Statement, mid: Tables, s2: Statement, now: int, date: int -> string)
    requires Step(t, s, now, date) == Some(mid)
    ensures Steps(t, [s, s2], now, date) == Step(mid, s2, now, date)
  {
    hide Step;
    assert [s, s2][1..] == [s2];
    OneStep(mid, s2, now, date);
  }

  /** Whatever the tables hold by then, such a cycle is registered, opened, validated and judged. */
  lemma {:induction false} CycleRunsThrough(t: Tables, c: Cycle, p: Packet, o: Opening, v: Validation, k: Candidate,
        early: int, late: int, date: int -> string)
    requires Kept(t, date) && Coherent(c, p, o, v, k, early, late, date) && New(t, c, p, o, v, k)
    ensures Run(t, WholeCycle(c, p, o, v, k, early, late), date) ==
      t.(cycles := t.cycles + [c.(registeredAt := early)], packets := t.packets + [p],
         openings := t.openings + [o.(openedAt := late)], validations := t.validations + [v], candidates := t.candidates + [k])
  {
    var t1 := t.(cycles := t.cycles + [c.(registeredAt := early)]);
    var t2 := t1.(packets := t.packets + [p]);
    var t3 := t2.(openings := t.openings + [o.(openedAt := late)]);
    var t4 := t3.(validations := t.validations + [v]);
    var t5 := t4.(candidates := t.candidates + [k]);
    NothingOfNewCycle(t, c.id, v.hash, date);
    Registered(t, c, p, o, v, k, early, late, date);
    CommitKeeps(t, Transaction([Insert(CycleRow(c)), Insert(PacketRow(p))], early), date);
    hide Kept, New, Coherent, Step;
    assert Steps(t, [Insert(CycleRow(c)), Insert(PacketRow(p))], early, date) == Some(t2);
    Opened(t2, t, c, p, o, v, k, early, late, date);
    Judged(t3, t, c, p, o, v, k, early, late, date);
    ThreeCommits(t, t2, t3, t5, WholeCycle(c, p, o, v, k, early, late), date);
  }

  lemma Registered(t: Tables, c: Cycle, p: Packet, o: Opening, v: Validation, k: Candidate,
                   early: int, late: int, date: int -> string)
    requires Coherent(c, p, o, v, k, early, late, date) && New(t, c, p, o, v, k)
    ensures Steps(t, [Insert(CycleRow(c)), Insert(PacketRow(p))], early, date) ==
            Some(t.(cycles := t.cycles + [c.(registeredAt := early)], packets := t.packets + [p]))
  {
    hide Step, Sha, CycleName, Midnight, Written, Untouched;
    var t1 := t.(cycles := t.cycles + [c.(registeredAt := early)]);
    CycleTaken(t, c, early, date);
    PacketTaken(t1, p, early, date);
    assert t1.cycles[|t.cycles|].id == c.id;
    TwoSteps(t, Insert(CycleRow(c)), t1, Insert(PacketRow(p)), early, date);
  }

  lemma Opened(t2: Tables, t: Tables, c: Cycle, p: Packet, o: Opening, v: Validation, k: Candidate,
                   early: int, late: int, date: int -> string)
    requires Kept(t2, date) && Coherent(c, p, o, v, k, early, late, date) && New(t, c, p, o, v, k)
    requires t2 == t.(cycles := t.cycles + [c.(registeredAt := early)], packets := t.packets + [p])
    requires forall i | 0 <= i < |t.openings| :: t.openings[i].cycle != c.id
    ensures Steps(t2, [Insert(OpeningRow(o))], late, date) == Some(t2.(openings := t.openings + [o.(openedAt := late)]))
  {
    hide Step, Sha, CycleName, Midnight, Written, Kept;
    OpeningTaken(t2, o, late, date);
    assert Untouched(t2, o.start, o.end) <==> Untouched(t, o.start, o.end);
    hide Untouched;
    assert t2.cycles[|t.cycles|].start == o.start && t2.packets[|t.packets|] == p;
    OneStep(t2, Insert(OpeningRow(o)), late, date);
  }

  lemma Judged(t3: Tables, t: Tables, c: Cycle, p: Packet, o: Opening, v: Validation, k: Candidate,
                   early: int, late: int, date: int -> string)
    requires Coherent(c, p, o, v, k, early, late, date) && New(t, c, p, o, v, k)
    requires t3 == t.(cycles := t.cycles + [c.(registeredAt := early)], packets := t.packets + [p],
                      openings := t.openings + [o.(openedAt := late)])
    requires forall i | 0 <= i < |t.validations| :: t.validations[i].cycle != c.id
    requires forall i | 0 <= i < |t.candidates| :: t.candidates[i].evidence != v.hash
    ensures Steps(t3, [Insert(ValidationRow(v)), Insert(CandidateRow(k))], late, date) ==
            Some(t3.(validations := t.validations + [v], candidates := t.candidates + [k]))
  {
    hide Step, Sha, CycleName, Midnight, Written, Untouched;
    ValidationTaken(t3, v, late, date);
    assert t3.openings[|t.openings|].cycle == v.cycle && t3.openings[|t.openings|].packet == v.packet;
    var t4 := t3.(validations := t.validations + [v]);
    CandidateTaken(t4, k, late, date);
    assert t4.validations[|t.validations|].hash == k.evidence;
    TwoSteps(t3, Insert(ValidationRow(v)), t4, Insert(CandidateRow(k)), late, date);
  }

  lemma ThreeCommits(t: Tables, a: Tables, b: Tables, c: Tables, txs: seq<Transaction>, date: int -> string)
    requires |txs| == 3
    requires Steps(t, txs[0].statements, txs[0].now, date) == Some(a)
    requires Steps(a, txs[1].statements, txs[1].now, date) == Some(b)
    requires Steps(b, txs[2].statements, txs[2].now, date) == Some(c)
    ensures Run(t, txs, date) == c
  {
    hide Steps;
    assert txs[..2][..1] == txs[..1] && txs[..1][..0] == [];
    assert Run(t, txs[..1][..0], date) == t;
    assert Run(t, txs[..1], date) == a;
    assert Run(t, txs[..2], date) == b;
  }
}
