/**
 * The tables of the trial queue under any sequence of transactions: immutable identities,
 * events and results, and one mutable row of work state per trial, guarded by a trigger.
 *
 * Rows keep the order of their insertion. Times are integer microseconds.
 */
module TrialQueue {
  import opened Wrappers
  import opened Text

  datatype State = Pending | Claimed | Succeeded | Failed | Cancelled

  datatype Kind = ClaimedNote | LeaseExpiredNote | SucceededNote | FailedNote | RetryNote | CancelledNote

  datatype Trial = Trial(trial: nat, study: nat, ordinal: int, space: int)

  datatype Row = Row(trial: nat, study: nat, ordinal: int, state: State, attempt: int,
                     owner: Option<string>, expires: Option<int>)

  datatype Verdict = Verdict(trial: nat, study: nat, attempt: int, worker: string)

  /** What an event's identifier is derived from. */
  datatype Key = Key(trial: nat, attempt: int, kind: Kind)

  datatype Note = Note(key: Key, trial: nat, study: nat, attempt: int, kind: Kind, worker: Option<string>)

  datatype Tables = Tables(studies: set<nat>, trials: seq<Trial>, queue: seq<Row>, verdicts: seq<Verdict>, notes: seq<Note>)

  // ---- Constraints ---------------------------------------------------------

  predicate Terminal(s: State) {
    s.Succeeded? || s.Cancelled?
  }

  predicate HoldsLease(r: Row) {
    r.owner.Some? && r.expires.Some?
  }

  predicate RowChecks(r: Row) {
    r.ordinal >= 0 && r.attempt >= 0 && (r.state.Claimed? <==> HoldsLease(r))
  }

  /** `strategy_lab_queue_guard` on an update. */
  predicate Guard(was: Row, now: Row) {
    && !Terminal(was.state)
    && now.trial == was.trial && now.study == was.study && now.ordinal == was.ordinal
    && now.attempt >= was.attempt
  }

  predicate HasTrial(t: Tables, trial: nat) {
    exists i :: 0 <= i < |t.trials| && t.trials[i].trial == trial
  }

  predicate AllowsTrial(t: Tables, r: Trial) {
    && r.ordinal >= 0 && r.space >= 0 && r.study in t.studies
    && forall i | 0 <= i < |t.trials| ::
         && t.trials[i].trial != r.trial
         && (t.trials[i].study != r.study || (t.trials[i].ordinal != r.ordinal && t.trials[i].space != r.space))
  }

  predicate AllowsRow(t: Tables, r: Row) {
    && RowChecks(r) && HasTrial(t, r.trial) && r.study in t.studies
    && forall i | 0 <= i < |t.queue| :: t.queue[i].trial != r.trial
  }

  predicate AllowsVerdict(t: Tables, v: Verdict) {
    && v.attempt > 0 && NotBlank(v.worker) && HasTrial(t, v.trial) && v.study in t.studies
    && forall i | 0 <= i < |t.verdicts| :: t.verdicts[i].trial != v.trial
  }

  predicate AllowsNote(t: Tables, n: Note) {
    && n.attempt >= 0 && HasTrial(t, n.trial) && n.study in t.studies
    && forall i | 0 <= i < |t.notes| :: t.notes[i].key != n.key
  }

  /** Every row an update names passes the guard and the checks. */
  predicate AllowsUpdate(q: seq<Row>, changes: map<nat, Row>) {
    forall i | i in changes && i < |q| :: Guard(q[i], changes[i]) && RowChecks(changes[i])
  }

  function Updated(q: seq<Row>, changes: map<nat, Row>): (r: seq<Row>)
    ensures |r| == |q| && forall i | 0 <= i < |q| :: r[i] == if i in changes then changes[i] else q[i]
  {
    seq(|q|, i requires 0 <= i < |q| => if i in changes then changes[i] else q[i])
  }

  // ---- Statements ----------------------------------------------------------

  datatype Evidence = StudyTable | TrialTable | VerdictTable | NoteTable

  datatype Statement =
    | RecordStudy(study: nat)
    | InsertTrial(trial: Trial)
    | Enqueue(row: Row)
    | UpdateQueue(changes: map<nat, Row>)
    | DeleteQueue(picked: set<nat>)
    | InsertVerdict(verdict: Verdict)
    | InsertNote(note: Note)
    | ChangeEvidence(table: Evidence, picked: set<nat>)

  function Count(t: Tables, table: Evidence): nat {
    match table
    case StudyTable => |t.studies|
    case TrialTable => |t.trials|
    case VerdictTable => |t.verdicts|
    case NoteTable => |t.notes|
  }

  function Step(t: Tables, s: Statement): Option<Tables> {
    match s
    case RecordStudy(study) => if study in t.studies then None else Some(t.(studies := t.studies + {study}))
    case InsertTrial(r) => if AllowsTrial(t, r) then Some(t.(trials := t.trials + [r])) else None
    case Enqueue(r) => if AllowsRow(t, r) then Some(t.(queue := t.queue + [r])) else None
    case UpdateQueue(changes) =>
      if AllowsUpdate(t.queue, changes) then Some(t.(queue := Updated(t.queue, changes))) else None
    case DeleteQueue(picked) => if exists i :: i in picked && i < |t.queue| then None else Some(t)
    case InsertVerdict(v) => if AllowsVerdict(t, v) then Some(t.(verdicts := t.verdicts + [v])) else None
    case InsertNote(n) => if AllowsNote(t, n) then Some(t.(notes := t.notes + [n])) else None
    case ChangeEvidence(table, picked) => if exists i :: i in picked && i < Count(t, table) then None else Some(t)
  }

  /** The statements of a transaction in order; `None` when one is refused. */
  function Steps(t: Tables, ss: seq<Statement>): Option<Tables>
    decreases |ss|
  {
    if ss == [] then Some(t)
    else
      match Step(t, ss[0])
      case None => None
      case Some(next) => Steps(next, ss[1..])
  }

  function Commit(t: Tables, ss: seq<Statement>): Tables {
    match Steps(t, ss)
    case None => t
    case Some(after) => after
  }

  function Run(t: Tables, txs: seq<seq<Statement>>): Tables
    decreases |txs|
  {
    if txs == [] then t
    else Commit(Run(t, txs[..|txs| - 1]), txs[|txs| - 1])
  }

  const EMPTY := Tables({}, [], [], [], [])

  /** The queue as work state that updates change in place, row by row. */
  class QueueTable {
    var rows: seq<Row>

    /** An UPDATE: the trigger and the checks see each row it picks; one refusal undoes all. */
    method Update(changes: map<nat, Row>) returns (taken: bool)
      modifies this
      ensures taken == AllowsUpdate(old(rows), changes)
      ensures rows == if taken then Updated(old(rows), changes) else old(rows)
    {
      var was := rows;
      var i := 0;
      while i < |was|
        invariant i <= |was| == |rows|
        invariant forall k | 0 <= k < |was| :: rows[k] == if k < i && k in changes then changes[k] else was[k]
        invariant forall k | k in changes && k < i :: Guard(was[k], changes[k]) && RowChecks(changes[k])
      {
        if i in changes {
          if !Guard(rows[i], changes[i]) || !RowChecks(changes[i]) {
            rows := was;
            return false;
          }
          rows := rows[i := changes[i]];
        }
        i := i + 1;
      }
      assert rows == Updated(was, changes);
      return true;
    }
  }

  // ---- What every history keeps --------------------------------------------

  ghost predicate QueueKept(t: Tables) {
    && (forall i | 0 <= i < |t.queue| :: RowChecks(t.queue[i]) && HasTrial(t, t.queue[i].trial))
    && (forall i, j | 0 <= i < j < |t.queue| :: t.queue[i].trial != t.queue[j].trial)
  }

  ghost predicate TrialsKept(t: Tables) {
    forall i, j | 0 <= i < j < |t.trials| :: t.trials[i].trial != t.trials[j].trial
  }

  ghost predicate VerdictsKept(t: Tables) {
    && (forall i | 0 <= i < |t.verdicts| :: t.verdicts[i].attempt > 0 && HasTrial(t, t.verdicts[i].trial))
    && (forall i, j | 0 <= i < j < |t.verdicts| :: t.verdicts[i].trial != t.verdicts[j].trial)
  }

  ghost predicate NotesKept(t: Tables) {
    forall i, j | 0 <= i < j < |t.notes| :: t.notes[i].key != t.notes[j].key
  }

  ghost predicate Kept(t: Tables) {
    TrialsKept(t) && QueueKept(t) && VerdictsKept(t) && NotesKept(t)
  }

  /** How a queue row may look later: the same trial, no fewer attempts, and frozen once terminal. */
  predicate RowFollows(was: Row, now: Row) {
    && now.trial == was.trial && now.study == was.study && now.ordinal == was.ordinal
    && was.attempt <= now.attempt
    && (Terminal(was.state) ==> now == was)
  }

  /** No row is lost, evidence is as it was, and each queue row follows. */
  ghost predicate Follows(t: Tables, after: Tables) {
    && t.studies <= after.studies && t.trials <= after.trials && t.verdicts <= after.verdicts && t.notes <= after.notes
    && |t.queue| <= |after.queue|
    && forall i | 0 <= i < |t.queue| :: RowFollows(t.queue[i], after.queue[i])
  }

  lemma TrialsSurvive(t: Tables, after: Tables)
    requires t.trials <= after.trials
    ensures forall trial | HasTrial(t, trial) :: HasTrial(after, trial)
  {
    forall trial | HasTrial(t, trial) ensures HasTrial(after, trial) {
      var i :| 0 <= i < |t.trials| && t.trials[i].trial == trial;
      assert after.trials[i] == t.trials[i];
    }
  }

  lemma StepKeeps(t: Tables, s: Statement)
    requires Kept(t)
    ensures match Step(t, s) case None => true case Some(after) => Kept(after) && Follows(t, after)
  {
    hide RowChecks, Guard;
    if Step(t, s).Some? {
      var after := Step(t, s).value;
      assert Follows(t, after) by { StepFollows(t, s); }
      hide Follows;
      TrialsSurvive(t, after);
      hide HasTrial, Guard;
    }
  }

  lemma StepFollows(t: Tables, s: Statement)
    requires Step(t, s).Some?
    ensures Follows(t, Step(t, s).value)
  {
    hide HasTrial, RowChecks, AllowsTrial, AllowsRow, AllowsVerdict, AllowsNote;
  }

  lemma FollowsTrans(t: Tables, mid: Tables, after: Tables)
    requires Follows(t, mid) && Follows(mid, after)
    ensures Follows(t, after)
  {
    forall i | 0 <= i < |t.queue| ensures RowFollows(t.queue[i], after.queue[i]) {
      assert RowFollows(t.queue[i], mid.queue[i]) && RowFollows(mid.queue[i], after.queue[i]);
    }
  }

  lemma {:induction false} StepsKeep(t: Tables, ss: seq<Statement>)
    requires Kept(t)
    ensures match Steps(t, ss) case None => true case Some(after) => Kept(after) && Follows(t, after)
    decreases |ss|
  {
    if ss != [] {
      hide Kept, Step;
      StepKeeps(t, ss[0]);
      match Step(t, ss[0])
      case None =>
      case Some(next) =>
        StepsKeep(next, ss[1..]);
        if Steps(next, ss[1..]).Some? {
          FollowsTrans(t, next, Steps(next, ss[1..]).value);
        }
        hide Follows;
    }
  }

  /**
   * Over any history of attempted transactions no row is lost, identities are fixed,
   * attempts never decrease, a SUCCEEDED or CANCELLED row is frozen for good, and the tables
   * keep their keys: one row and at most one result for each trial.
   */
  lemma {:induction false} RunKeeps(t: Tables, txs: seq<seq<Statement>>)
    requires Kept(t)
    ensures Kept(Run(t, txs)) && Follows(t, Run(t, txs))
    decreases |txs|
  {
    hide Kept, Steps;
    if txs != [] {
      var before := Run(t, txs[..|txs| - 1]);
      RunKeeps(t, txs[..|txs| - 1]);
      StepsKeep(before, txs[|txs| - 1]);
      FollowsSame(before);
      FollowsTrans(t, before, Run(t, txs));
    } else {
      FollowsSame(t);
    }
  }

  lemma FollowsSame(t: Tables)
    ensures Follows(t, t)
  {
  }

  /** From the empty tables on: a complete lease exactly while CLAIMED, one row, one result. */
  lemma {:induction false} EveryHistory(txs: seq<seq<Statement>>)
    ensures var t := Run(EMPTY, txs);
      && (forall i | 0 <= i < |t.queue| :: t.queue[i].state.Claimed? <==> HoldsLease(t.queue[i]))
      && (forall i, j | 0 <= i < j < |t.queue| :: t.queue[i].trial != t.queue[j].trial)
      && (forall i, j | 0 <= i < j < |t.verdicts| :: t.verdicts[i].trial != t.verdicts[j].trial)
      && (forall i | 0 <= i < |t.verdicts| :: t.verdicts[i].attempt > 0)
  {
    RunKeeps(EMPTY, txs);
    var t := Run(EMPTY, txs);
    hide Run, HasTrial;
    forall i | 0 <= i < |t.queue| ensures t.queue[i].state.Claimed? <==> HoldsLease(t.queue[i]) {
      assert RowChecks(t.queue[i]);
    }
  }

  /** No half of a lease is left on a row that is not claimed. */
  predicate WholeLease(r: Row) {
    r.owner.Some? <==> r.expires.Some?
  }

  /** A row that passes the checks has no trace of a lease unless CLAIMED exactly when its lease is whole. */
  lemma {:induction false} LeaseOnlyWhileClaimed(r: Row)
    requires RowChecks(r)
    ensures (r.owner.Some? || r.expires.Some? ==> r.state.Claimed?) <==> WholeLease(r)
  {
  }

  /** The checks let half a lease stay behind: a FAILED row may keep its owner. */
  lemma {:induction false} HalfALeaseStays(t: Tables, i: nat)
    requires i < |t.queue| && t.queue[i].state.Claimed? && RowChecks(t.queue[i])
    ensures var half := t.queue[i].(state := Failed, expires := None);
      Step(t, UpdateQueue(map[i := half])) == Some(t.(queue := Updated(t.queue, map[i := half])))
      && !WholeLease(half)
  {
  }
}
