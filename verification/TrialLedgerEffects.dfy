/**
 * What each operation of the trial ledger answers and what it does to the tables, column by
 * column, and what a renewed or fresh claim is worth until its lease runs out.
 */
module TrialLedgerEffects {
  import opened Wrappers
  import Text
  import opened TrialQueue
  import opened TrialLedger
  import opened TrialLedgerFacts
  import opened TrialLedgerRuns

  // ---- Workers -------------------------------------------------------------

  predicate LetterOrDigit(c: char) {
    'a' <= c <= 'z' || 'A' <= c <= 'Z' || '0' <= c <= '9'
  }

  predicate NameChar(c: char) {
    LetterOrDigit(c) || c == '_' || c == '.' || c == ':' || c == '@' || c == '-'
  }

  ghost predicate Names(body: string, s: string) {
    && (s == body || s == body + "\n") && 1 <= |body| <= 128
    && LetterOrDigit(body[0]) && forall i | 0 <= i < |body| :: NameChar(body[i])
  }

  lemma AlphabetIs(body: string)
    ensures (forall i | 0 <= i < |body| :: NameChar(body[i])) <==>
            forall i | 0 <= i < |body| :: Text.IsAlnum(body[i]) || body[i] in "_.:@-"
    ensures body != "" ==> (LetterOrDigit(body[0]) <==> Text.IsAlnum(body[0]))
  {
    forall i | 0 <= i < |body| ensures NameChar(body[i]) <==> Text.IsAlnum(body[i]) || body[i] in "_.:@-" {
    }
    hide NameChar;
  }

  /** A worker's name: one to 128 characters of the alphabet, the first a letter or digit; a final newline passes. */
  lemma {:induction false} WorkerNames(s: string)
    ensures IsWorker(s) <==> exists body: string :: Names(body, s)
  {
    if IsWorker(s) {
      var body := if |s| > 0 && s[|s| - 1] == '\n' then s[..|s| - 1] else s;
      AlphabetIs(body);
      assert s == body || s == body + "\n";
      assert Names(body, s);
    }
    assert !NameChar('\n');
    if body: string :| Names(body, s) {
      AlphabetIs(body);
      hide NameChar, LetterOrDigit, Text.IsAlnum;
      assert body[|body| - 1] != '\n';
      assert s != body ==> s[|s| - 1] == '\n' && s[..|s| - 1] == body;
    }
  }

  // ---- Whose a row is ------------------------------------------------------

  ghost predicate Queued(t: Tables, trial: nat) {
    exists i :: 0 <= i < |t.queue| && t.queue[i].trial == trial
  }

  /** The claim's own row, still claimed by its worker in its attempt. */
  ghost predicate Owned(t: Tables, c: Claim, i: int) {
    && 0 <= i < |t.queue| && t.queue[i].trial == c.trial && t.queue[i].state == Claimed
    && t.queue[i].attempt == c.attempt && t.queue[i].owner == Some(c.worker)
  }

  /** And the lease has not run out. */
  ghost predicate Holds(t: Tables, c: Claim, now: int, i: int) {
    Owned(t, c, i) && exists end :: t.queue[i].expires == Some(end) && now < end
  }

  /** Which error a claim that does not hold its row gets. */
  ghost predicate Refuses(t: Tables, c: Claim, now: int, e: LedgerError) {
    match e
    case TrialNotQueued => !Queued(t, c.trial)
    case LeaseLost => Queued(t, c.trial) && forall i :: !Owned(t, c, i)
    case LeaseExpired => exists i :: Owned(t, c, i) && !Holds(t, c, now, i)
    case _ => false
  }

  lemma IndexOfFinds(q: seq<Row>, i: nat)
    requires i < |q| && forall j, k | 0 <= j < k < |q| :: q[j].trial != q[k].trial
    ensures IndexOf(q, q[i].trial) == Some(i)
  {
    var k := IndexOf(q, q[i].trial).value;
    assert q[k].trial == q[i].trial;
    hide IndexOf;
    assert k == i;
  }

  lemma {:induction false} HeldExactly(t: Tables, c: Claim, now: int)
    requires Sound(t)
    ensures match HeldRow(t, c, now)
            case Ok(i) => Holds(t, c, now, i) && forall j | Holds(t, c, now, j) :: j == i
            case Err(e) => Refuses(t, c, now, e) && forall j :: !Holds(t, c, now, j)
    ensures forall e, f | Refuses(t, c, now, e) && Refuses(t, c, now, f) :: e == f
    ensures forall e, i | Refuses(t, c, now, e) :: !Holds(t, c, now, i)
  {
    TrialsApart(t);
    assert forall i | 0 <= i < |t.queue| :: RowChecks(t.queue[i]) by {
      forall i | 0 <= i < |t.queue| ensures RowChecks(t.queue[i]) { RowOfSound(t, i); }
    }
    hide Sound, IndexOf;
    forall j | Owned(t, c, j) ensures IndexOf(t.queue, c.trial) == Some(j) {
      IndexOfFinds(t.queue, j);
    }
    match IndexOf(t.queue, c.trial)
    case None =>
    case Some(i) =>
      assert RowChecks(t.queue[i]);
      assert Queued(t, c.trial);
      assert forall j | Owned(t, c, j) :: j == i;
      assert HeldRow(t, c, now).Ok? ==> Owned(t, c, i);
      assert HeldRow(t, c, now) == Err(LeaseExpired) ==> Owned(t, c, i) && !Holds(t, c, now, i);
  }

  // ---- One row -------------------------------------------------------------

  lemma MovedOne(t: Tables, i: nat, a: Act)
    requires i < |t.queue|
    ensures Moved(t, [i], a).queue == t.queue[i := Changed(t.queue[i], a)]
    ensures AllNotes(t.queue, [i], a) == NotesFor(t.queue[i], a)
  {
    hide Changed, NotesFor;
    assert [i][1..] == [] && AllNotes(t.queue, [], a) == [];
    assert i in [i];
  }

  lemma HeldMoved(t: Tables, c: Claim, now: int, i: nat, a: Act)
    requires Sound(t) && Holds(t, c, now, i)
    requires a.Renewing? || ((a == Completing(c) || a == Failing(c)) && c.study in t.studies)
    ensures HeldRow(t, c, now) == Ok(i)
    ensures Move(t, [i], a) == Ok(t.(verdicts := t.verdicts + VerdictsFor(a), queue := t.queue[i := Changed(t.queue[i], a)],
                                     notes := t.notes + NotesFor(t.queue[i], a)))
  {
    HeldExactly(t, c, now);
    hide Sound, Holds, Refuses;
    assert HeldRow(t, c, now) == Ok(i);
    if a.Renewing? {
      RenewMoves(t, c, now, a.expires);
    } else {
      HeldMoves(t, c, now, a);
    }
    MovedOne(t, i, a);
    MoveSound(t, [i], a);
    hide HeldRow, Move, MayMove, Changed, NotesFor, Follows;
  }

  /**
   * A renewal is taken exactly from the worker whose claim still holds the row, and moves the
   * end of its lease, and nothing else, to the full length from now.
   */
  lemma {:induction false} RenewTable(t: Tables, c: Claim, now: int, lease: int)
    requires Sound(t)
    ensures lease <= 0 ==> Renew(t, c, now, lease) == Err(LeaseSecondsMustBePositive)
    ensures lease > 0 ==> forall e :: Renew(t, c, now, lease) == Err(e) <==> Refuses(t, c, now, e)
    ensures lease > 0 ==> forall i | Holds(t, c, now, i) ::
      Renew(t, c, now, lease) == Ok(t.(queue := t.queue[i := t.queue[i].(expires := Some(now + lease))]))
  {
    hide Refuses, Holds, Sound, HeldRow, Move;
    HeldExactly(t, c, now);
    if lease > 0 && HeldRow(t, c, now).Ok? {
      HeldMoved(t, c, now, HeldRow(t, c, now).value, Renewing(now + lease));
    }
    assert t.verdicts + [] == t.verdicts && t.notes + [] == t.notes;
  }

  /** A completion ends the claim as SUCCEEDED, with one result and one event, both by this worker. */
  lemma {:induction false} CompleteTable(t: Tables, c: Claim, now: int)
    requires Sound(t)
    ensures forall e :: Complete(t, c, now) == Err(e) <==>
              Refuses(t, c, now, e) || (e == StudyNotRegistered && c.study !in t.studies && exists i :: Holds(t, c, now, i))
    ensures c.study in t.studies ==> forall i | Holds(t, c, now, i) ::
      Complete(t, c, now) == Ok(t.(
        queue := t.queue[i := t.queue[i].(state := Succeeded, owner := None, expires := None)],
        verdicts := t.verdicts + [Verdict(c.trial, c.study, c.attempt, c.worker)],
        notes := t.notes + [Note(Key(c.trial, c.attempt, SucceededNote), c.trial, c.study, c.attempt, SucceededNote, Some(c.worker))]))
  {
    HeldExactly(t, c, now);
    HolderInQueue(t, c, now);
    hide Refuses, Holds;
    if c.study in t.studies && HeldRow(t, c, now).Ok? {
      HeldMoved(t, c, now, HeldRow(t, c, now).value, Completing(c));
    }
    hide Sound, HeldRow, Move;
  }

  lemma HolderInQueue(t: Tables, c: Claim, now: int)
    ensures forall i | Holds(t, c, now, i) :: 0 <= i < |t.queue| && t.queue[i].trial == c.trial
    ensures !Refuses(t, c, now, StudyNotRegistered) && !Refuses(t, c, now, RefusedByDatabase)
  {
  }

  /** A failure ends the claim as FAILED, with one event by this worker and no result. */
  lemma {:induction false} FailTable(t: Tables, c: Claim, now: int)
    requires Sound(t)
    ensures forall e :: Fail(t, c, now) == Err(e) <==>
              Refuses(t, c, now, e) || (e == RefusedByDatabase && c.study !in t.studies && exists i :: Holds(t, c, now, i))
    ensures c.study in t.studies ==> forall i | Holds(t, c, now, i) ::
      Fail(t, c, now) == Ok(t.(
        queue := t.queue[i := t.queue[i].(state := Failed, owner := None, expires := None)],
        notes := t.notes + [Note(Key(c.trial, c.attempt, FailedNote), c.trial, c.study, c.attempt, FailedNote, Some(c.worker))]))
  {
    HeldExactly(t, c, now);
    HolderInQueue(t, c, now);
    hide Refuses, Holds;
    if HeldRow(t, c, now).Ok? {
      if c.study in t.studies {
        HeldMoved(t, c, now, HeldRow(t, c, now).value, Failing(c));
      } else {
        HeldInQueue(t, c, now);
        UnknownStudyRefused(t, HeldRow(t, c, now).value, c);
      }
    }
    hide Sound, HeldRow, Steps;
    assert t.verdicts + [] == t.verdicts;
  }

  // ---- Many rows -----------------------------------------------------------

  /** The rows of a move that takes place: each picked row as changed, each other as it was. */
  ghost predicate RowsBecome(q: seq<Row>, after: seq<Row>, taken: set<nat>, become: seq<Row>) {
    && |after| == |q| == |become|
    && forall i | 0 <= i < |q| :: after[i] == if i in taken then become[i] else q[i]
  }

  /** The events written: those of the taken rows, and no others. */
  ghost predicate NotesBecome(t: Tables, after: Tables, taken: set<nat>, written: seq<seq<Note>>) {
    && t.notes <= after.notes && |written| == |t.queue|
    && forall n :: n in after.notes[|t.notes|..] <==> exists i: nat :: i in taken && i < |written| && n in written[i]
  }

  lemma NoteTaken(t: Tables, picked: seq<nat>, a: Act, taken: set<nat>, written: seq<seq<Note>>, n: Note)
    requires forall i: nat :: i in taken <==> i in picked
    requires |written| == |t.queue| && forall i: nat | i in taken && i < |t.queue| :: written[i] == NotesFor(t.queue[i], a)
    ensures n in AllNotes(t.queue, picked, a) <==> exists i: nat :: i in taken && i < |written| && n in written[i]
  {
    AllNotesFrom(t.queue, picked, a);
    hide AllNotes, NotesFor;
    if n in AllNotes(t.queue, picked, a) {
      var i: nat :| FromRow(t.queue, picked, a, n, i);
      assert i in taken && n in written[i];
    }
    if i: nat :| i in taken && i < |written| && n in written[i] {
      assert FromRow(t.queue, picked, a, n, i);
    }
  }

  lemma ManyMoved(t: Tables, picked: seq<nat>, a: Act, taken: set<nat>, become: seq<Row>, written: seq<seq<Note>>)
    requires Sound(t) && MayMove(t, picked, a) && !a.Completing?
    requires forall i: nat :: i in taken <==> i in picked
    requires |become| == |t.queue| && forall i: nat | i in taken && i < |t.queue| :: become[i] == Changed(t.queue[i], a)
    requires |written| == |t.queue| && forall i: nat | i in taken && i < |t.queue| :: written[i] == NotesFor(t.queue[i], a)
    ensures Move(t, picked, a).Ok?
    ensures var after := Move(t, picked, a).value;
      && RowsBecome(t.queue, after.queue, taken, become) && NotesBecome(t, after, taken, written)
      && after.studies == t.studies && after.trials == t.trials && after.verdicts == t.verdicts
  {
    var after := Moved(t, picked, a);
    assert t.verdicts + [] == t.verdicts;
    MoveSound(t, picked, a);
    hide Sound, MayMove, Move, Changed, NotesFor, AllNotes, Follows, RowsBecome, NotesBecome;
    ManyRows(t, picked, a, taken, become);
    ManyNotes(t, picked, a, taken, written);
  }

  lemma ManyRows(t: Tables, picked: seq<nat>, a: Act, taken: set<nat>, become: seq<Row>)
    requires forall i: nat :: i in taken <==> i in picked
    requires |become| == |t.queue| && forall i: nat | i in taken && i < |t.queue| :: become[i] == Changed(t.queue[i], a)
    ensures RowsBecome(t.queue, Moved(t, picked, a).queue, taken, become)
  {
    hide Changed, AllNotes;
  }

  lemma ManyNotes(t: Tables, picked: seq<nat>, a: Act, taken: set<nat>, written: seq<seq<Note>>)
    requires forall i: nat :: i in taken <==> i in picked
    requires |written| == |t.queue| && forall i: nat | i in taken && i < |t.queue| :: written[i] == NotesFor(t.queue[i], a)
    ensures NotesBecome(t, Moved(t, picked, a), taken, written)
  {
    var ns := AllNotes(t.queue, picked, a);
    hide NotesFor, AllNotes;
    assert Moved(t, picked, a).notes[|t.notes|..] == ns;
    forall n ensures n in ns <==> exists i: nat :: i in taken && i < |written| && n in written[i] {
      NoteTaken(t, picked, a, taken, written, n);
    }
  }

  /** A row a claim may take: PENDING, or CLAIMED with a lease that ran out. */
  predicate Open(r: Row, study: nat, now: int) {
    r.study == study && (r.state == Pending || (r.state == Claimed && r.expires.Some? && r.expires.value <= now))
  }

  /** Of the open rows that nobody else has locked, the first `limit` by ordinal. */
  ghost predicate TakesFirst(t: Tables, study: nat, limit: int, now: int, locked: set<nat>, taken: set<nat>) {
    var open := set i: nat | i < |t.queue| && Open(t.queue[i], study, now) && i !in locked;
    && taken <= open && |taken| == (if limit <= |open| then limit else |open|)
    && forall i, j | i in taken && j in open - taken :: t.queue[i].ordinal <= t.queue[j].ordinal
  }

  function NoteFor(r: Row, attempt: int, kind: Kind, worker: Option<string>): Note {
    Note(Key(r.trial, attempt, kind), r.trial, r.study, attempt, kind, worker)
  }

  function ClaimedRows(q: seq<Row>, worker: string, end: int): seq<Row> {
    seq(|q|, i requires 0 <= i < |q| =>
      Row(q[i].trial, q[i].study, q[i].ordinal, Claimed, q[i].attempt + 1, Some(worker), Some(end)))
  }

  function ClaimedNotes(q: seq<Row>, worker: string): seq<seq<Note>> {
    seq(|q|, i requires 0 <= i < |q| =>
      if q[i].state == Claimed
      then [NoteFor(q[i], q[i].attempt, LeaseExpiredNote, q[i].owner), NoteFor(q[i], q[i].attempt + 1, ClaimedNote, Some(worker))]
      else [NoteFor(q[i], q[i].attempt + 1, ClaimedNote, Some(worker))])
  }

  lemma SeqTaken(p: seq<nat>) returns (taken: set<nat>)
    requires forall j, k | 0 <= j < k < |p| :: p[j] != p[k]
    ensures |taken| == |p| && forall i: nat :: i in taken <==> i in p
  {
    taken := {};
    for n := 0 to |p|
      invariant |taken| == n && forall i: nat :: i in taken <==> i in p[..n]
    {
      assert p[..n + 1] == p[..n] + [p[n]];
      taken := taken + {p[n]};
    }
    assert p[..|p|] == p;
  }

  /**
   * A claim takes the first `limit` open, unlocked rows; each gets the next attempt, this
   * worker and a full lease from now, with a CLAIMED event, and the one who let it run out a
   * LEASE_EXPIRED event. Nothing else changes.
   */
  lemma {:induction false} ClaimTable(t: Tables, study: nat, worker: string, limit: int, now: int, lease: int, locked: set<nat>)
    returns (taken: set<nat>)
    requires Sound(t)
    ensures var r := ClaimBatch(t, study, worker, limit, now, lease, locked);
      && (r == Err(WorkerIdInvalid) <==> !IsWorker(worker))
      && (r == Err(ClaimLimitMustBePositive) <==> IsWorker(worker) && limit <= 0)
      && (r == Err(LeaseSecondsMustBePositive) <==> IsWorker(worker) && limit > 0 && lease <= 0)
      && (IsWorker(worker) && limit > 0 && lease > 0 ==>
            && r.Ok? && TakesFirst(t, study, limit, now, locked, taken)
            && RowsBecome(t.queue, r.value.queue, taken, ClaimedRows(t.queue, worker, now + lease))
            && NotesBecome(t, r.value, taken, ClaimedNotes(t.queue, worker))
            && r.value.studies == t.studies && r.value.trials == t.trials && r.value.verdicts == t.verdicts)
  {
    taken := {};
    hide IsWorker, Sound, Move, TakesFirst, RowsBecome, NotesBecome, ClaimedRows, ClaimedNotes, Pick, Candidates, MayMove;
    if IsWorker(worker) && limit > 0 && lease > 0 {
      var p := Pick(t.queue, Candidates(t.queue, study, now, locked), limit);
      taken := PickedTaken(t, study, limit, now, locked);
      ClaimMoves(t, study, worker, limit, now, lease, locked);
      ClaimedAct(t.queue, worker, now + lease, taken);
      ManyMoved(t, p, Claiming(worker, now + lease), taken, ClaimedRows(t.queue, worker, now + lease), ClaimedNotes(t.queue, worker));
    }
  }

  lemma PickedTaken(t: Tables, study: nat, limit: nat, now: int, locked: set<nat>) returns (taken: set<nat>)
    ensures var p := Pick(t.queue, Candidates(t.queue, study, now, locked), limit);
      && TakesFirst(t, study, limit, now, locked, taken) && forall i: nat :: i in taken <==> i in p
  {
    var cs := Candidates(t.queue, study, now, locked);
    PickTakesTheFirst(t.queue, cs, limit);
    hide Pick;
    taken := SeqTaken(Pick(t.queue, cs, limit));
    assert cs == set i: nat | i < |t.queue| && Open(t.queue[i], study, now) && i !in locked;
  }

  lemma ClaimedAct(q: seq<Row>, worker: string, end: int, taken: set<nat>)
    ensures |ClaimedRows(q, worker, end)| == |q| == |ClaimedNotes(q, worker)|
    ensures forall i: nat | i in taken && i < |q| ::
      && ClaimedRows(q, worker, end)[i] == Changed(q[i], Claiming(worker, end))
      && ClaimedNotes(q, worker)[i] == NotesFor(q[i], Claiming(worker, end))
  {
  }

  function StateRows(q: seq<Row>, s: State): seq<Row> {
    seq(|q|, i requires 0 <= i < |q| => Row(q[i].trial, q[i].study, q[i].ordinal, s, q[i].attempt, None, None))
  }

  function StateNotes(q: seq<Row>, kind: Kind): seq<seq<Note>> {
    seq(|q|, i requires 0 <= i < |q| => [NoteFor(q[i], q[i].attempt, kind, None)])
  }

  /** A retry makes every FAILED trial of the study PENDING again, in the attempt it had. */
  lemma {:induction false} RetryTable(t: Tables, study: nat)
    requires Sound(t)
    ensures RetryFailed(t, study).Ok?
    ensures var after := RetryFailed(t, study).value;
      var taken := set i: nat | i < |t.queue| && t.queue[i].study == study && t.queue[i].state == Failed;
      && RowsBecome(t.queue, after.queue, taken, StateRows(t.queue, Pending))
      && NotesBecome(t, after, taken, StateNotes(t.queue, RetryNote))
      && after.studies == t.studies && after.trials == t.trials && after.verdicts == t.verdicts
  {
    RetryMoves(t, study);
    var p := FailedRows(t.queue, study, |t.queue|);
    var taken := set i: nat | i < |t.queue| && t.queue[i].study == study && t.queue[i].state == Failed;
    forall i: nat | i in taken ensures StateRows(t.queue, Pending)[i] == Changed(t.queue[i], Retrying) {
      RowOfSound(t, i);
    }
    hide Sound, MayMove, Move, RowsBecome, NotesBecome, FailedRows;
    ManyMoved(t, p, Retrying, taken, StateRows(t.queue, Pending), StateNotes(t.queue, RetryNote));
  }

  /** A cancellation ends every trial of the study that has not SUCCEEDED or been CANCELLED before. */
  lemma {:induction false} CancelTable(t: Tables, study: nat)
    requires Sound(t)
    ensures CancelStudy(t, study).Ok?
    ensures var after := CancelStudy(t, study).value;
      var taken := set i: nat | i < |t.queue| && t.queue[i].study == study && t.queue[i].state in {Pending, Claimed, Failed};
      && RowsBecome(t.queue, after.queue, taken, StateRows(t.queue, Cancelled))
      && NotesBecome(t, after, taken, StateNotes(t.queue, CancelledNote))
      && after.studies == t.studies && after.trials == t.trials && after.verdicts == t.verdicts
  {
    CancelMoves(t, study);
    var p := OpenRows(t.queue, study, |t.queue|);
    var taken := set i: nat | i < |t.queue| && t.queue[i].study == study && t.queue[i].state in {Pending, Claimed, Failed};
    CancelledAct(t.queue, taken);
    hide Sound, MayMove, Move, RowsBecome, NotesBecome, OpenRows, StateRows, StateNotes;
    ManyMoved(t, p, Cancelling, taken, StateRows(t.queue, Cancelled), StateNotes(t.queue, CancelledNote));
  }

  lemma CancelledAct(q: seq<Row>, taken: set<nat>)
    ensures |StateRows(q, Cancelled)| == |q| == |StateNotes(q, CancelledNote)|
    ensures forall i: nat | i in taken && i < |q| ::
      StateRows(q, Cancelled)[i] == Changed(q[i], Cancelling) && StateNotes(q, CancelledNote)[i] == NotesFor(q[i], Cancelling)
  {
  }

  // ---- Registration --------------------------------------------------------

  /** No trial bears its identifier, and none of its study its ordinal or its place in the space. */
  predicate Apart(a: Trial, b: Trial) {
    a.trial != b.trial && (a.study != b.study || (a.ordinal != b.ordinal && a.space != b.space))
  }

  ghost predicate NewTrials(t: Tables, trials: seq<Trial>) {
    && (forall k | 0 <= k < |trials| :: trials[k].ordinal >= 0 && trials[k].space >= 0)
    && (forall i, k | 0 <= i < |t.trials| && 0 <= k < |trials| :: Apart(t.trials[i], trials[k]))
    && (forall j, k | 0 <= j < k < |trials| :: Apart(trials[j], trials[k]))
  }

  lemma NewTrialsNext(t: Tables, trials: seq<Trial>)
    requires trials != [] && trials[0].study in t.studies
    ensures NewTrials(t, trials) <==>
            AllowsTrial(t, trials[0]) && NewTrials(t.(trials := t.trials + [trials[0]]), trials[1..])
  {
    var next := t.(trials := t.trials + [trials[0]]);
    var rest := trials[1..];
    assert AllowsTrial(t, trials[0]) <==>
           trials[0].ordinal >= 0 && trials[0].space >= 0 && forall i | 0 <= i < |t.trials| :: Apart(t.trials[i], trials[0]);
    hide AllowsTrial, Apart;
    assert forall k | 0 < k < |trials| :: trials[k] == rest[k - 1];
    if NewTrials(next, rest) {
      assert forall i | 0 <= i < |t.trials| :: next.trials[i] == t.trials[i];
      assert next.trials[|t.trials|] == trials[0];
    }
  }

  lemma {:induction false} TrialsAccepted(t: Tables, study: nat, trials: seq<Trial>)
    requires study in t.studies && forall k | 0 <= k < |trials| :: trials[k].study == study
    ensures Steps(t, TrialStatements(trials)).Some? <==> NewTrials(t, trials)
    decreases |trials|
  {
    if trials != [] {
      NewTrialsNext(t, trials);
      hide NewTrials, AllowsTrial;
      var next := t.(trials := t.trials + [trials[0]]);
      assert TrialStatements(trials)[1..] == TrialStatements(trials[1..]);
      assert TrialStatements(trials)[0] == InsertTrial(trials[0]);
      TrialsAccepted(next, study, trials[1..]);
    }
  }

  ghost predicate NewRows(t: Tables, trials: seq<Trial>) {
    && (forall k | 0 <= k < |trials| :: trials[k].ordinal >= 0 && HasTrial(t, trials[k].trial) && trials[k].study in t.studies)
    && (forall i, k | 0 <= i < |t.queue| && 0 <= k < |trials| :: t.queue[i].trial != trials[k].trial)
    && (forall j, k | 0 <= j < k < |trials| :: trials[j].trial != trials[k].trial)
  }

  lemma {:induction false} RowsAccepted(t: Tables, trials: seq<Trial>)
    requires NewRows(t, trials)
    ensures Steps(t, QueueStatements(trials)).Some?
    decreases |trials|
  {
    if trials != [] {
      var next := t.(queue := t.queue + [FreshRow(trials[0])]);
      assert QueueStatements(trials)[1..] == QueueStatements(trials[1..]);
      assert QueueStatements(trials)[0] == Enqueue(FreshRow(trials[0]));
      TrialsSurvive(t, next);
      hide HasTrial;
      assert NewRows(next, trials[1..]);
      RowsAccepted(next, trials[1..]);
    }
  }

  /**
   * A study is registered exactly when its trials are new, and then whole: each trial is
   * PENDING, with no attempt and no lease. A study that is there stays as it is.
   */
  lemma {:induction false} RegisterTable(t: Tables, study: nat, trials: seq<Trial>)
    requires Sound(t) && forall k | 0 <= k < |trials| :: trials[k].study == study
    ensures study in t.studies ==> Register(t, study, trials) == Ok(t)
    ensures study !in t.studies ==> (Register(t, study, trials).Ok? <==> NewTrials(t, trials))
    ensures study !in t.studies && NewTrials(t, trials) ==>
      var after := Register(t, study, trials).value;
      && after.studies == t.studies + {study} && after.trials == t.trials + trials
      && after.verdicts == t.verdicts && after.notes == t.notes
      && t.queue <= after.queue && |after.queue| == |t.queue| + |trials|
      && forall k | 0 <= k < |trials| ::
           after.queue[|t.queue| + k] == Row(trials[k].trial, study, trials[k].ordinal, Pending, 0, None, None)
  {
    if study !in t.studies {
      var t1 := t.(studies := t.studies + {study});
      TrialsAccepted(t1, study, trials);
      RegisterSteps(t, study, trials);
      assert NewTrials(t1, trials) <==> NewTrials(t, trials);
      if NewTrials(t, trials) {
        hide Steps;
        TrialStatementsMean(t1, trials);
        var t2 := t1.(trials := t1.trials + trials);
        QueueFits(t, study, trials, t2);
        RowsAccepted(t2, trials);
        RegisterMeans(t, study, trials);
      }
    }
  }

  lemma RegisterSteps(t: Tables, study: nat, trials: seq<Trial>)
    requires study !in t.studies
    ensures var mid := Steps(t.(studies := t.studies + {study}), TrialStatements(trials));
      Register(t, study, trials).Ok? <==> mid.Some? && Steps(mid.value, QueueStatements(trials)).Some?
  {
    var first := [RecordStudy(study)];
    OneStep(t, first[0], t.(studies := t.studies + {study}));
    StepsConcat(t, first + TrialStatements(trials), QueueStatements(trials));
    StepsConcat(t, first, TrialStatements(trials));
    hide Steps;
  }

  lemma QueueFits(t: Tables, study: nat, trials: seq<Trial>, t2: Tables)
    requires Sound(t) && NewTrials(t, trials) && forall k | 0 <= k < |trials| :: trials[k].study == study
    requires t2 == t.(studies := t.studies + {study}, trials := t.trials + trials)
    ensures NewRows(t2, trials)
  {
    forall k | 0 <= k < |trials| ensures HasTrial(t2, trials[k].trial) && !HasTrial(t, trials[k].trial) {
      assert t2.trials[|t.trials| + k] == trials[k];
      assert forall i | 0 <= i < |t.trials| :: Apart(t.trials[i], trials[k]);
    }
    forall i | 0 <= i < |t.queue| ensures HasTrial(t, t.queue[i].trial) {
      RowOfSound(t, i);
    }
    assert forall j, k | 0 <= j < k < |trials| :: Apart(trials[j], trials[k]);
    hide HasTrial, Sound, NewTrials;
  }

  // ---- What a lease is worth -----------------------------------------------

  /** What anybody else may do: claims before the lease ends, writes under other claims, other studies' cancellations. */
  predicate Elsewhere(r: Row, worker: string, end: int, op: Op) {
    match op
    case OpClaim(_, _, _, now, _, _) => now < end
    case OpRenew(c, _, _) => c.trial != r.trial || c.attempt != r.attempt || c.worker != worker
    case OpComplete(c, _) => c.trial != r.trial || c.attempt != r.attempt || c.worker != worker
    case OpFail(c, _) => c.trial != r.trial || c.attempt != r.attempt || c.worker != worker
    case OpCancel(study) => study != r.study
    case OpRegister(_, _) => true
    case OpRetry(_) => true
  }

  /** A row claimed until `end` is the worker's until then, whatever is done elsewhere. */
  lemma {:induction false} HeldUntil(t: Tables, ops: seq<Op>, c: Claim, i: nat, end: int)
    requires Sound(t) && Owned(t, c, i) && t.queue[i].expires == Some(end)
    requires forall k | 0 <= k < |ops| :: Elsewhere(t.queue[i], c.worker, end, ops[k])
    ensures var later := History(t, ops);
      && Sound(later) && i < |later.queue| && later.queue[i] == t.queue[i]
      && (forall now | now < end && c.study in t.studies :: Complete(later, c, now).Ok?)
      && (forall now, lease | now < end && lease > 0 :: Renew(later, c, now, lease).Ok?)
  {
    forall k | 0 <= k < |ops| ensures Foreign(t.queue[i], ops[k]) {
      assert Elsewhere(t.queue[i], c.worker, end, ops[k]);
    }
    LeaseProtects(t, ops, i);
    HistorySound(t, ops);
    var later := History(t, ops);
    hide Sound, History, Foreign, Elsewhere;
    assert c.study in t.studies ==> c.study in later.studies;
    hide Follows;
    forall now | now < end ensures Holds(later, c, now, i) {
    }
    forall now | now < end && c.study in t.studies ensures Complete(later, c, now).Ok? {
      CompleteTable(later, c, now);
    }
    forall now, lease | now < end && lease > 0 ensures Renew(later, c, now, lease).Ok? {
      RenewTable(later, c, now, lease);
    }
  }

  /**
   * A renewal is worth its whole length: until `now + lease` no claim of another worker takes
   * the trial, and the holder may renew or complete it at any instant before that.
   */
  lemma {:induction false} RenewedHolds(t: Tables, ops: seq<Op>, c: Claim, i: nat, now: int, lease: int)
    requires Sound(t) && Holds(t, c, now, i) && lease > 0
    requires forall k | 0 <= k < |ops| :: Elsewhere(t.queue[i], c.worker, now + lease, ops[k])
    ensures var later := History(After(t, OpRenew(c, now, lease)), ops);
      && i < |later.queue| && later.queue[i] == t.queue[i].(expires := Some(now + lease))
      && (forall instant | instant < now + lease && c.study in t.studies :: Complete(later, c, instant).Ok?)
      && (forall instant, more | instant < now + lease && more > 0 :: Renew(later, c, instant, more).Ok?)
  {
    var renewed := RenewAnswers(t, c, i, now, lease);
    hide Sound, History, After, Holds;
    forall k | 0 <= k < |ops| ensures Elsewhere(renewed.queue[i], c.worker, now + lease, ops[k]) {
      assert Elsewhere(t.queue[i], c.worker, now + lease, ops[k]);
    }
    hide Elsewhere;
    HeldUntil(renewed, ops, c, i, now + lease);
  }

  lemma RenewAnswers(t: Tables, c: Claim, i: nat, now: int, lease: int) returns (renewed: Tables)
    requires Sound(t) && Holds(t, c, now, i) && lease > 0
    ensures renewed == After(t, OpRenew(c, now, lease)) && renewed == t.(queue := t.queue[i := t.queue[i].(expires := Some(now + lease))])
    ensures Sound(renewed) && Owned(renewed, c, i)
  {
    RenewTable(t, c, now, lease);
    ApplySound(t, OpRenew(c, now, lease));
    renewed := After(t, OpRenew(c, now, lease));
    hide Sound, Renew, Follows, Refuses;
  }

  /** And so is a claim: a trial it took is this worker's to complete until `now + lease`. */
  lemma {:induction false} ClaimedHolds(t: Tables, study: nat, worker: string, limit: int, now: int, lease: int, locked: set<nat>,
                                        ops: seq<Op>, i: nat, instant: int)
    requires Sound(t) && i < |t.queue| && instant < now + lease
    requires var mid := After(t, OpClaim(study, worker, limit, now, lease, locked));
      && i < |mid.queue| && mid.queue[i] != t.queue[i]
      && forall k | 0 <= k < |ops| :: Elsewhere(mid.queue[i], worker, now + lease, ops[k])
    ensures var later := History(After(t, OpClaim(study, worker, limit, now, lease, locked)), ops);
      Complete(later, Claim(t.queue[i].trial, t.queue[i].study, t.queue[i].attempt + 1, worker), instant).Ok?
  {
    var op := OpClaim(study, worker, limit, now, lease, locked);
    var mid := After(t, op);
    hide Sound, Follows, History, Complete, Elsewhere, After, Apply;
    ApplySound(t, op);
    ClaimedRow(t, op, i);
    HeldUntil(mid, ops, Claim(t.queue[i].trial, t.queue[i].study, t.queue[i].attempt + 1, worker), i, now + lease);
  }

  lemma ClaimedRow(t: Tables, op: Op, i: nat)
    requires Sound(t) && op.OpClaim? && i < |t.queue|
    requires i < |After(t, op).queue| && After(t, op).queue[i] != t.queue[i]
    ensures var r := t.queue[i];
      After(t, op).queue[i] == Row(r.trial, r.study, r.ordinal, Claimed, r.attempt + 1, Some(op.worker), Some(op.now + op.lease))
    ensures t.queue[i].study in t.studies && After(t, op).studies == t.studies
  {
    hide ClaimBatch, TakesFirst, NotesBecome, IsWorker, After, Apply, ClaimedRows, RowsBecome;
    RowOfSound(t, i);
    hide Sound;
    ClaimAnswers(t, op);
    var taken := ClaimTable(t, op.study, op.worker, op.limit, op.now, op.lease, op.locked);
    BecomesAt(t.queue, After(t, op).queue, taken, op.worker, op.now + op.lease, i);
  }

  lemma BecomesAt(q: seq<Row>, after: seq<Row>, taken: set<nat>, worker: string, end: int, i: nat)
    requires i < |q| && RowsBecome(q, after, taken, ClaimedRows(q, worker, end))
    ensures |after| == |q|
    ensures after[i] == q[i] || after[i] == Row(q[i].trial, q[i].study, q[i].ordinal, Claimed, q[i].attempt + 1, Some(worker), Some(end))
  {
  }

  lemma ClaimAnswers(t: Tables, op: Op)
    requires op.OpClaim?
    ensures var r := ClaimBatch(t, op.study, op.worker, op.limit, op.now, op.lease, op.locked);
      After(t, op) == (if r.Ok? then r.value else t)
    ensures || (op.limit > 0 && op.lease > 0 && IsWorker(op.worker))
            || ClaimBatch(t, op.study, op.worker, op.limit, op.now, op.lease, op.locked).Err?
  {
    hide Move, IsWorker, Pick, Candidates;
  }
}
