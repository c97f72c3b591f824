/**
 * The queue operations the workers use: register, claim under a lease, renew, complete,
 * fail, retry and cancel. Each is one transaction of statements on the guarded tables.
 *
 * The clock's reading, the end of a lease and the rows other transactions have locked are
 * inputs. An event's identifier is what it is derived from.
 */
module TrialLedger {
  import opened Wrappers
  import opened Text
  import opened TrialQueue

  datatype Claim = Claim(trial: nat, study: nat, attempt: int, worker: string)

  datatype LedgerError =
    | WorkerIdInvalid | ClaimLimitMustBePositive | LeaseSecondsMustBePositive
    | TrialNotQueued | LeaseLost | LeaseExpired | StudyNotRegistered
    | RefusedByDatabase

  /** `^[A-Za-z0-9][A-Za-z0-9_.:@-]{0,127}$`, where `$` also matches before a final newline. */
  predicate IsWorker(s: string) {
    IsName(if |s| > 0 && s[|s| - 1] == '\n' then s[..|s| - 1] else s)
  }

  predicate IsName(body: string) {
    && 1 <= |body| <= 128 && IsAlnum(body[0])
    && forall i | 0 <= i < |body| :: IsAlnum(body[i]) || body[i] in "_.:@-"
  }

  function Transact(t: Tables, ss: seq<Statement>): Result<Tables, LedgerError> {
    match Steps(t, ss)
    case None => Err(RefusedByDatabase)
    case Some(after) => Ok(after)
  }

  function NoteOf(r: Row, attempt: int, kind: Kind, worker: Option<string>): Note {
    Note(Key(r.trial, attempt, kind), r.trial, r.study, attempt, kind, worker)
  }

  function NoteStatements(notes: seq<Note>): (ss: seq<Statement>)
    ensures |ss| == |notes|
  {
    if notes == [] then [] else [InsertNote(notes[0])] + NoteStatements(notes[1..])
  }

  /** What an operation does to the rows it picks. */
  datatype Act =
    | Claiming(worker: string, expires: int)
    | Renewing(expires: int)
    | Completing(claim: Claim)
    | Failing(claim: Claim)
    | Retrying
    | Cancelling

  function Released(r: Row, s: State): Row {
    r.(state := s, owner := None, expires := None)
  }

  function Changed(r: Row, a: Act): Row {
    match a
    case Claiming(worker, expires) =>
      r.(state := Claimed, attempt := r.attempt + 1, owner := Some(worker), expires := Some(expires))
    case Renewing(expires) => r.(expires := Some(expires))
    case Completing(_) => Released(r, Succeeded)
    case Failing(_) => Released(r, Failed)
    case Retrying => r.(state := Pending)
    case Cancelling => Released(r, Cancelled)
  }

  function NotesFor(r: Row, a: Act): seq<Note> {
    match a
    case Claiming(worker, _) =>
      (if r.state.Claimed? then [NoteOf(r, r.attempt, LeaseExpiredNote, r.owner)] else [])
      + [NoteOf(r, r.attempt + 1, ClaimedNote, Some(worker))]
    case Renewing(_) => []
    case Completing(c) => [NoteOf(r.(study := c.study), c.attempt, SucceededNote, Some(c.worker))]
    case Failing(c) => [NoteOf(r.(study := c.study), c.attempt, FailedNote, Some(c.worker))]
    case Retrying => [NoteOf(r, r.attempt, RetryNote, None)]
    case Cancelling => [NoteOf(r, r.attempt, CancelledNote, None)]
  }

  function VerdictsFor(a: Act): seq<Verdict> {
    match a
    case Completing(c) => [Verdict(c.trial, c.study, c.attempt, c.worker)]
    case _ => []
  }

  function Changes(q: seq<Row>, picked: seq<nat>, a: Act): map<nat, Row> {
    map i | i in picked && i < |q| :: Changed(q[i], a)
  }

  function AllNotes(q: seq<Row>, picked: seq<nat>, a: Act): seq<Note> {
    if picked == [] then []
    else (if picked[0] < |q| then NotesFor(q[picked[0]], a) else []) + AllNotes(q, picked[1..], a)
  }

  function VerdictStatements(verdicts: seq<Verdict>): seq<Statement> {
    if verdicts == [] then [] else [InsertVerdict(verdicts[0])] + VerdictStatements(verdicts[1..])
  }

  /** One UPDATE of the rows picked, and the events of each in turn; a result comes first. */
  function Move(t: Tables, picked: seq<nat>, a: Act): Result<Tables, LedgerError> {
    Transact(t, VerdictStatements(VerdictsFor(a)) + [UpdateQueue(Changes(t.queue, picked, a))]
                + NoteStatements(AllNotes(t.queue, picked, a)))
  }

  // ---- Register ------------------------------------------------------------

  function TrialStatements(trials: seq<Trial>): (ss: seq<Statement>) {
    if trials == [] then [] else [InsertTrial(trials[0])] + TrialStatements(trials[1..])
  }

  function FreshRow(r: Trial): Row {
    Row(r.trial, r.study, r.ordinal, Pending, 0, None, None)
  }

  function QueueStatements(trials: seq<Trial>): (ss: seq<Statement>) {
    if trials == [] then [] else [Enqueue(FreshRow(trials[0]))] + QueueStatements(trials[1..])
  }

  /** A study that is there already is left as it is. */
  function Register(t: Tables, study: nat, trials: seq<Trial>): Result<Tables, LedgerError> {
    if study in t.studies then Ok(t)
    else Transact(t, [RecordStudy(study)] + TrialStatements(trials) + QueueStatements(trials))
  }

  // ---- Claim ---------------------------------------------------------------

  predicate Claimable(r: Row, study: nat, now: int) {
    r.study == study && (r.state.Pending? || (r.state.Claimed? && r.expires.Some? && r.expires.value <= now))
  }

  function Candidates(q: seq<Row>, study: nat, now: int, locked: set<nat>): set<nat> {
    set i: nat | i < |q| && Claimable(q[i], study, now) && i !in locked
  }

  /** The candidate of the least ordinal. */
  function Least(q: seq<Row>, s: set<nat>, upTo: nat): (r: Option<nat>)
    requires upTo <= |q|
    ensures r.None? ==> forall i | i in s :: upTo <= i
    ensures r.Some? ==> r.value in s && r.value < upTo
                        && forall i | i in s && i < upTo :: q[r.value].ordinal <= q[i].ordinal
  {
    if upTo == 0 then None
    else
      var before := Least(q, s, upTo - 1);
      if upTo - 1 !in s then before
      else if before.Some? && q[before.value].ordinal <= q[upTo - 1].ordinal then before
      else Some(upTo - 1)
  }

  /** `ORDER BY ordinal LIMIT n` */
  function Pick(q: seq<Row>, s: set<nat>, limit: nat): (r: seq<nat>)
    ensures forall i | i in r :: i in s && i < |q|
    decreases limit
  {
    if limit == 0 then []
    else
      match Least(q, s, |q|)
      case None => []
      case Some(i) => [i] + Pick(q, s - {i}, limit - 1)
  }

  function ClaimBatch(t: Tables, study: nat, worker: string, limit: int, now: int, lease: int, locked: set<nat>)
    : Result<Tables, LedgerError>
  {
    if !IsWorker(worker) then Err(WorkerIdInvalid)
    else if limit <= 0 then Err(ClaimLimitMustBePositive)
    else if lease <= 0 then Err(LeaseSecondsMustBePositive)
    else
      var picked := Pick(t.queue, Candidates(t.queue, study, now, locked), limit);
      Move(t, picked, Claiming(worker, now + lease))
  }

  // ---- One claim -----------------------------------------------------------

  function IndexOf(q: seq<Row>, trial: nat): (r: Option<nat>)
    ensures r.Some? ==> r.value < |q| && q[r.value].trial == trial
    ensures r.None? ==> forall i | 0 <= i < |q| :: q[i].trial != trial
  {
    if q == [] then None
    else if q[|q| - 1].trial == trial then Some(|q| - 1)
    else IndexOf(q[..|q| - 1], trial)
  }

  /** `_hold_lease`: the row, if the claim still holds it. */
  function HeldRow(t: Tables, c: Claim, now: int): Result<nat, LedgerError> {
    match IndexOf(t.queue, c.trial)
    case None => Err(TrialNotQueued)
    case Some(i) =>
      var r := t.queue[i];
      if !r.state.Claimed? || r.attempt != c.attempt || r.owner != Some(c.worker) then Err(LeaseLost)
      else if r.expires.Some? && r.expires.value <= now then Err(LeaseExpired)
      else Ok(i)
  }

  function Renew(t: Tables, c: Claim, now: int, lease: int): Result<Tables, LedgerError> {
    if lease <= 0 then Err(LeaseSecondsMustBePositive)
    else
      match HeldRow(t, c, now)
      case Err(e) => Err(e)
      case Ok(i) => Move(t, [i], Renewing(now + lease))
  }

  function Complete(t: Tables, c: Claim, now: int): Result<Tables, LedgerError> {
    match HeldRow(t, c, now)
    case Err(e) => Err(e)
    case Ok(i) => if c.study !in t.studies then Err(StudyNotRegistered) else Move(t, [i], Completing(c))
  }

  function Fail(t: Tables, c: Claim, now: int): Result<Tables, LedgerError> {
    match HeldRow(t, c, now)
    case Err(e) => Err(e)
    case Ok(i) => Move(t, [i], Failing(c))
  }

  // ---- Whole studies -------------------------------------------------------

  /** The rows a study-wide UPDATE picks, in the order it returns them. */
  function FailedRows(q: seq<Row>, study: nat, upTo: nat): (rows: seq<nat>)
    requires upTo <= |q|
    ensures forall i: nat :: i in rows <==> i < upTo && q[i].study == study && q[i].state.Failed?
    ensures forall j, k | 0 <= j < k < |rows| :: rows[j] != rows[k]
  {
    if upTo == 0 then []
    else FailedRows(q, study, upTo - 1)
         + if q[upTo - 1].study == study && q[upTo - 1].state.Failed? then [upTo - 1] else []
  }

  function OpenRows(q: seq<Row>, study: nat, upTo: nat): (rows: seq<nat>)
    requires upTo <= |q|
    ensures forall i: nat :: i in rows <==> i < upTo && q[i].study == study && !Terminal(q[i].state)
    ensures forall j, k | 0 <= j < k < |rows| :: rows[j] != rows[k]
  {
    if upTo == 0 then []
    else OpenRows(q, study, upTo - 1)
         + if q[upTo - 1].study == study && !Terminal(q[upTo - 1].state) then [upTo - 1] else []
  }

  function RetryFailed(t: Tables, study: nat): Result<Tables, LedgerError> {
    Move(t, FailedRows(t.queue, study, |t.queue|), Retrying)
  }

  function CancelStudy(t: Tables, study: nat): Result<Tables, LedgerError> {
    Move(t, OpenRows(t.queue, study, |t.queue|), Cancelling)
  }

  // ---- Histories -----------------------------------------------------------

  datatype Op =
    | OpRegister(study: nat, trials: seq<Trial>)
    | OpClaim(study: nat, worker: string, limit: int, now: int, lease: int, locked: set<nat>)
    | OpRenew(claim: Claim, now: int, lease: int)
    | OpComplete(claim: Claim, now: int)
    | OpFail(claim: Claim, now: int)
    | OpRetry(study: nat)
    | OpCancel(study: nat)

  function Apply(t: Tables, op: Op): Result<Tables, LedgerError> {
    match op
    case OpRegister(study, trials) => Register(t, study, trials)
    case OpClaim(study, worker, limit, now, lease, locked) => ClaimBatch(t, study, worker, limit, now, lease, locked)
    case OpRenew(c, now, lease) => Renew(t, c, now, lease)
    case OpComplete(c, now) => Complete(t, c, now)
    case OpFail(c, now) => Fail(t, c, now)
    case OpRetry(study) => RetryFailed(t, study)
    case OpCancel(study) => CancelStudy(t, study)
  }

  /** An operation that is refused changes nothing. */
  function After(t: Tables, op: Op): Tables {
    match Apply(t, op)
    case Err(_) => t
    case Ok(after) => after
  }

  function History(t: Tables, ops: seq<Op>): Tables
    decreases |ops|
  {
    if ops == [] then t else After(History(t, ops[..|ops| - 1]), ops[|ops| - 1])
  }
}
