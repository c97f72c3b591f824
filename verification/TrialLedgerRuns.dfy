/**
 * Whole histories of the trial ledger's operations.
 */
module TrialLedgerRuns {
  import opened Wrappers
  import Text
  import opened TrialQueue
  import opened TrialLedger
  import opened TrialLedgerFacts

  // ---- What a claim takes --------------------------------------------------

  /** Distinct rows in ordinal order. */
  ghost predicate InOrder(q: seq<Row>, p: seq<nat>) {
    && (forall i | i in p :: i < |q|)
    && (forall j, k | 0 <= j < k < |p| :: p[j] != p[k] && p[j] in p && p[k] in p && q[p[j]].ordinal <= q[p[k]].ordinal)
  }

  lemma {:induction false} PickInOrder(q: seq<Row>, s: set<nat>, limit: nat)
    ensures InOrder(q, Pick(q, s, limit))
    decreases limit
  {
    if limit > 0 && Least(q, s, |q|).Some? {
      var i := Least(q, s, |q|).value;
      var tail := Pick(q, s - {i}, limit - 1);
      PickInOrder(q, s - {i}, limit - 1);
      assert Pick(q, s, limit) == [i] + tail;
      hide Least, Pick, InOrder;
      OrderedJoin(q, i, tail);
    }
  }

  lemma {:induction false} PickCount(q: seq<Row>, s: set<nat>, limit: nat)
    requires forall i | i in s :: i < |q|
    ensures |Pick(q, s, limit)| == if limit <= |s| then limit else |s|
    decreases limit
  {
    if limit > 0 {
      match Least(q, s, |q|)
      case None => assert s == {};
      case Some(i) =>
        PickCount(q, s - {i}, limit - 1);
        assert |s| == |s - {i}| + 1;
    }
  }

  /** The first candidates by ordinal, up to the limit, each once. */
  lemma {:induction false} PickTakesTheFirst(q: seq<Row>, s: set<nat>, limit: nat)
    requires forall i | i in s :: i < |q|
    ensures var p := Pick(q, s, limit);
      && InOrder(q, p)
      && |p| == (if limit <= |s| then limit else |s|)
      && (forall i, j | i in p && j in s && j !in p :: q[i].ordinal <= q[j].ordinal)
    decreases limit
  {
    hide Least, InOrder;
    PickInOrder(q, s, limit);
    PickCount(q, s, limit);
    if limit > 0 && Least(q, s, |q|).Some? {
      var i := Least(q, s, |q|).value;
      PickTakesTheFirst(q, s - {i}, limit - 1);
      assert Pick(q, s, limit) == [i] + Pick(q, s - {i}, limit - 1);
      hide Pick;
      assert forall j | j in s :: q[i].ordinal <= q[j].ordinal;
    }
  }

  lemma OrderedJoin(q: seq<Row>, i: nat, tail: seq<nat>)
    requires InOrder(q, tail) && i < |q| && forall j | j in tail :: j != i && j < |q| && q[i].ordinal <= q[j].ordinal
    ensures InOrder(q, [i] + tail)
  {
    var p := [i] + tail;
    forall j, k | 0 <= j < k < |p| ensures p[j] != p[k] && p[j] in p && p[k] in p && q[p[j]].ordinal <= q[p[k]].ordinal {
      assert p[k] == tail[k - 1] && p[k] in tail;
      if j > 0 {
        assert p[j] == tail[j - 1];
      }
    }
  }

  // ---- Which move an operation is ------------------------------------------

  lemma ClaimMoves(t: Tables, study: nat, worker: string, limit: nat, now: int, lease: int, locked: set<nat>)
    requires IsWorker(worker)
    ensures MayMove(t, Pick(t.queue, Candidates(t.queue, study, now, locked), limit), Claiming(worker, now + lease))
  {
    hide IsWorker;
    PickTakesTheFirst(t.queue, Candidates(t.queue, study, now, locked), limit);
    hide Pick;
  }

  lemma HeldMoves(t: Tables, c: Claim, now: int, a: Act)
    requires HeldRow(t, c, now).Ok? && c.study in t.studies
    requires a == Completing(c) || a == Failing(c) || a.Renewing?
    ensures MayMove(t, [HeldRow(t, c, now).value], a)
  {
    hide IndexOf;
  }

  lemma RenewMoves(t: Tables, c: Claim, now: int, expires: int)
    requires HeldRow(t, c, now).Ok?
    ensures MayMove(t, [HeldRow(t, c, now).value], Renewing(expires))
  {
    hide IndexOf;
  }

  lemma {:induction false} RetryMoves(t: Tables, study: nat)
    ensures MayMove(t, FailedRows(t.queue, study, |t.queue|), Retrying)
  {
    hide FailedRows;
  }

  lemma {:induction false} CancelMoves(t: Tables, study: nat)
    ensures MayMove(t, OpenRows(t.queue, study, |t.queue|), Cancelling)
  {
    hide OpenRows;
  }

  /** An event must name a study that is there; a claim this ledger gave out does. */
  predicate ClaimKnown(t: Tables, op: Op) {
    op.OpFail? ==> op.claim.study in t.studies
  }

  /** The rows and the act of an operation that goes through. */
  ghost predicate IsMove(t: Tables, op: Op, picked: seq<nat>, a: Act) {
    MayMove(t, picked, a) && Apply(t, op) == Move(t, picked, a)
  }

  lemma OpMoves(t: Tables, op: Op)
    requires !op.OpRegister? && ClaimKnown(t, op)
    ensures (Apply(t, op).Err? && !Apply(t, op).error.RefusedByDatabase?) || exists picked, a :: IsMove(t, op, picked, a)
  {
    hide Move, MayMove, Pick, IndexOf, FailedRows, OpenRows, IsWorker, HeldRow;
    match op
    case OpClaim(study, worker, limit, now, lease, locked) =>
      if IsWorker(worker) && limit > 0 && lease > 0 {
        ClaimMoves(t, study, worker, limit, now, lease, locked);
        assert IsMove(t, op, Pick(t.queue, Candidates(t.queue, study, now, locked), limit), Claiming(worker, now + lease));
      }
    case OpRenew(c, now, lease) =>
      HeldNotRefused(t, c, now);
      if lease > 0 && HeldRow(t, c, now).Ok? {
        RenewMoves(t, c, now, now + lease);
        assert IsMove(t, op, [HeldRow(t, c, now).value], Renewing(now + lease));
      }
    case OpComplete(c, now) =>
      HeldNotRefused(t, c, now);
      if HeldRow(t, c, now).Ok? && c.study in t.studies {
        HeldMoves(t, c, now, Completing(c));
        assert IsMove(t, op, [HeldRow(t, c, now).value], Completing(c));
      }
    case OpFail(c, now) =>
      HeldNotRefused(t, c, now);
      if HeldRow(t, c, now).Ok? {
        HeldMoves(t, c, now, Failing(c));
        assert IsMove(t, op, [HeldRow(t, c, now).value], Failing(c));
      }
    case OpRetry(study) =>
      RetryMoves(t, study);
      assert IsMove(t, op, FailedRows(t.queue, study, |t.queue|), Retrying);
    case OpCancel(study) =>
      CancelMoves(t, study);
      assert IsMove(t, op, OpenRows(t.queue, study, |t.queue|), Cancelling);
  }

  lemma HeldNotRefused(t: Tables, c: Claim, now: int)
    ensures HeldRow(t, c, now).Err? ==> !HeldRow(t, c, now).error.RefusedByDatabase?
  {
  }

  /** The foreign key refuses the event of a claim that names an unknown study. */
  lemma {:induction false} FailOfUnknownStudy(t: Tables, c: Claim, now: int)
    requires c.study !in t.studies
    ensures Fail(t, c, now).Err?
  {
    hide HeldRow;
    if HeldRow(t, c, now).Ok? {
      var i := HeldRow(t, c, now).value;
      HeldInQueue(t, c, now);
      UnknownStudyRefused(t, i, c);
    }
  }

  lemma HeldInQueue(t: Tables, c: Claim, now: int)
    requires HeldRow(t, c, now).Ok?
    ensures HeldRow(t, c, now).value < |t.queue|
  {
  }

  lemma UnknownStudyRefused(t: Tables, i: nat, c: Claim)
    requires c.study !in t.studies && i < |t.queue|
    ensures Move(t, [i], Failing(c)).Err?
  {
    var update := UpdateQueue(Changes(t.queue, [i], Failing(c)));
    var ns := AllNotes(t.queue, [i], Failing(c));
    assert [i][1..] == [] && AllNotes(t.queue, [], Failing(c)) == [];
    assert |ns| == 1 && ns[0].study == c.study;
    hide AllNotes, Changes, Changed;
    StepsConcat(t, [update], NoteStatements(ns));
    assert VerdictStatements([]) + [update] == [update];
    hide AllowsUpdate;
    assert [update][1..] == [];
    assert NoteStatements(ns)[0] == InsertNote(ns[0]);
    hide NoteStatements;
    if Step(t, update).Some? {
      var next := Step(t, update).value;
      assert next.studies == t.studies;
      assert Step(next, InsertNote(ns[0])) == None;
      assert Steps(next, NoteStatements(ns)) == None;
      assert Steps(t, [update]) == Steps(next, []) == Some(next);
    }
  }

  // ---- Registration --------------------------------------------------------

  function FreshRows(trials: seq<Trial>): (rows: seq<Row>)
    ensures |rows| == |trials| && forall k | 0 <= k < |rows| :: rows[k] == FreshRow(trials[k])
  {
    seq(|trials|, k requires 0 <= k < |trials| => FreshRow(trials[k]))
  }

  lemma {:induction false} TrialStatementsMean(t: Tables, trials: seq<Trial>)
    requires Steps(t, TrialStatements(trials)).Some?
    ensures Steps(t, TrialStatements(trials)).value == t.(trials := t.trials + trials)
    ensures forall k | 0 <= k < |trials| :: !HasTrial(t, trials[k].trial)
    decreases |trials|
  {
    if trials == [] {
      assert t.trials + trials == t.trials;
    } else {
      var next := t.(trials := t.trials + [trials[0]]);
      assert TrialStatements(trials)[1..] == TrialStatements(trials[1..]);
      assert Step(t, TrialStatements(trials)[0]) == Some(next);
      TrialStatementsMean(next, trials[1..]);
      TrialsSurvive(t, next);
      assert next.trials + trials[1..] == t.trials + trials;
      forall k | 0 <= k < |trials| ensures !HasTrial(t, trials[k].trial) {
        if k > 0 {
          assert trials[k] == trials[1..][k - 1];
        }
      }
    }
  }

  lemma {:induction false} QueueStatementsMean(t: Tables, trials: seq<Trial>)
    requires Steps(t, QueueStatements(trials)).Some?
    ensures Steps(t, QueueStatements(trials)).value == t.(queue := t.queue + FreshRows(trials))
    ensures forall k | 0 <= k < |trials| :: trials[k].study in t.studies
    decreases |trials|
  {
    if trials == [] {
      assert t.queue + FreshRows(trials) == t.queue;
    } else {
      var next := t.(queue := t.queue + [FreshRow(trials[0])]);
      assert QueueStatements(trials)[1..] == QueueStatements(trials[1..]);
      hide HasTrial;
      assert Step(t, QueueStatements(trials)[0]) == Some(next);
      QueueStatementsMean(next, trials[1..]);
      assert next.queue + FreshRows(trials[1..]) == t.queue + FreshRows(trials);
      forall k | 0 <= k < |trials| ensures trials[k].study in t.studies {
        if k > 0 {
          assert trials[k] == trials[1..][k - 1];
        }
      }
    }
  }

  lemma RegisterMeans(t: Tables, study: nat, trials: seq<Trial>)
    requires study !in t.studies && Register(t, study, trials).Ok?
    ensures Register(t, study, trials).value
            == t.(studies := t.studies + {study}, trials := t.trials + trials, queue := t.queue + FreshRows(trials))
    ensures forall k | 0 <= k < |trials| :: !HasTrial(t, trials[k].trial) && trials[k].study in t.studies + {study}
  {
    var first := [RecordStudy(study)];
    var t1 := t.(studies := t.studies + {study});
    OneStep(t, first[0], t1);
    StepsConcat(t, first + TrialStatements(trials), QueueStatements(trials));
    StepsConcat(t, first, TrialStatements(trials));
    hide Steps, HasTrial;
    TrialStatementsMean(t1, trials);
    var t2 := t1.(trials := t1.trials + trials);
    QueueStatementsMean(t2, trials);
    assert forall trial :: HasTrial(t, trial) <==> HasTrial(t1, trial) by { TrialsSurvive(t, t1); TrialsSurvive(t1, t); }
  }

  lemma NothingOfNewTrial(t: Tables, trial: nat)
    requires Sound(t) && !HasTrial(t, trial)
    ensures forall k | 0 <= k < |t.notes| :: t.notes[k].trial != trial
    ensures forall v | 0 <= v < |t.verdicts| :: t.verdicts[v].trial != trial
  {
    hide HasTrial, RowsSound, VerdictsEarned;
    forall k | 0 <= k < |t.notes| ensures t.notes[k].trial != trial {
      assert WrittenNote(t, t.notes[k]);
    }
  }

  /** A row's soundness rests on its trial's events and result only. */
  lemma RowStaysSound(t: Tables, after: Tables, r: Row)
    requires RowSound(t, r) && t.studies <= after.studies && after.notes == t.notes && after.verdicts == t.verdicts
    ensures RowSound(after, r)
  {
    hide NoteFits, Text.NotBlank;
    if r.state.Claimed? {
      NotedSurvives(t, after, r.trial, r.attempt, r.owner.value);
    }
    hide Noted;
    assert HasVerdict(t, r.trial) <==> HasVerdict(after, r.trial);
  }

  lemma FreshRowSound(t: Tables, after: Tables, r: Trial)
    requires Sound(t) && !HasTrial(t, r.trial) && after.notes == t.notes && after.verdicts == t.verdicts
    requires r.study in after.studies && RowChecks(FreshRow(r))
    ensures RowSound(after, FreshRow(r))
  {
    NothingOfNewTrial(t, r.trial);
    hide Sound, HasTrial;
  }

  lemma RegisterSound(t: Tables, study: nat, trials: seq<Trial>)
    requires Sound(t) && study !in t.studies && Register(t, study, trials).Ok?
    ensures var after := Register(t, study, trials).value; Sound(after) && Follows(t, after)
  {
    var after := Register(t, study, trials).value;
    RegisterMeans(t, study, trials);
    StepsKeep(t, [RecordStudy(study)] + TrialStatements(trials) + QueueStatements(trials));
    hide Register, Steps, Follows;
    assert RowsSound(after) by {
      hide Follows, RowSound, HasTrial;
      forall i | 0 <= i < |after.queue| ensures RowSound(after, after.queue[i]) {
        if i < |t.queue| {
          assert after.queue[i] == t.queue[i];
          hide Sound;
          RowStaysSound(t, after, t.queue[i]);
        } else {
          assert after.queue[i] == FreshRow(trials[i - |t.queue|]);
          FreshRowSound(t, after, trials[i - |t.queue|]);
        }
      }
    }
    EvidenceStays(t, after);
    hide Kept, RowsSound, NotesWritten, VerdictsEarned, HasTrial;
  }

  lemma EvidenceStays(t: Tables, after: Tables)
    requires NotesWritten(t) && VerdictsEarned(t) && t.trials <= after.trials && t.queue <= after.queue
    requires after.notes == t.notes && after.verdicts == t.verdicts
    ensures NotesWritten(after) && VerdictsEarned(after)
  {
    TrialsSurvive(t, after);
    hide HasTrial;
    forall k | 0 <= k < |after.notes| ensures WrittenNote(after, after.notes[k]) {
      assert WrittenNote(t, t.notes[k]);
    }
    hide WrittenNote;
    forall v | 0 <= v < |after.verdicts| ensures Earned(after, after.verdicts[v]) {
      var d := t.verdicts[v];
      assert Earned(t, d);
      NotedSurvives(t, after, d.trial, d.attempt, d.worker);
      hide Noted;
      var i :| 0 <= i < |t.queue| && t.queue[i].trial == d.trial && t.queue[i].state.Succeeded? && t.queue[i].attempt == d.attempt;
      assert after.queue[i] == t.queue[i];
    }
  }

  // ---- Every history -------------------------------------------------------

  /** An operation keeps the invariant; and but for a registration, the database never refuses one. */
  lemma {:induction false} ApplySound(t: Tables, op: Op)
    requires Sound(t)
    ensures Sound(After(t, op)) && Follows(t, After(t, op))
    ensures !op.OpRegister? && ClaimKnown(t, op) ==> Apply(t, op) != Err(RefusedByDatabase)
  {
    hide Sound, Move, MayMove, Moved, Register, Fail;
    FollowsSame(t);
    hide Follows;
    if op.OpRegister? {
      if op.study !in t.studies && Register(t, op.study, op.trials).Ok? {
        RegisterSound(t, op.study, op.trials);
      }
      RegisterKnown(t, op.study, op.trials);
    } else if ClaimKnown(t, op) {
      OpMoves(t, op);
      if Apply(t, op).Ok? || Apply(t, op).error.RefusedByDatabase? {
        var picked, a :| IsMove(t, op, picked, a);
        MoveSound(t, picked, a);
      }
    } else {
      FailOfUnknownStudy(t, op.claim, op.now);
    }
  }

  lemma RegisterKnown(t: Tables, study: nat, trials: seq<Trial>)
    ensures study in t.studies ==> Register(t, study, trials) == Ok(t)
  {
  }

  lemma EmptySound()
    ensures Sound(EMPTY)
  {
  }

  lemma {:induction false} HistorySound(t: Tables, ops: seq<Op>)
    requires Sound(t)
    ensures Sound(History(t, ops)) && Follows(t, History(t, ops))
    decreases |ops|
  {
    FollowsSame(t);
    hide Sound, After, Follows;
    if ops != [] {
      var before := History(t, ops[..|ops| - 1]);
      HistorySound(t, ops[..|ops| - 1]);
      ApplySound(before, ops[|ops| - 1]);
      FollowsTrans(t, before, History(t, ops));
    }
  }

  /**
   * After every history: a trial has a result exactly when it SUCCEEDED; the result is of
   * the row's own attempt; and the claim of that attempt is on record once, by the worker
   * the result names. No attempt of any trial was ever given out twice.
   */
  lemma {:induction false} ResultsAreEarned(ops: seq<Op>)
    ensures var t := History(EMPTY, ops);
      && (forall i | 0 <= i < |t.queue| :: t.queue[i].state.Succeeded? <==> HasVerdict(t, t.queue[i].trial))
      && (forall v | 0 <= v < |t.verdicts| :: Earned(t, t.verdicts[v]))
      && (forall j, k | 0 <= j < k < |t.notes| && t.notes[j].kind.ClaimedNote? && t.notes[k].kind.ClaimedNote? ::
            t.notes[j].trial != t.notes[k].trial || t.notes[j].attempt != t.notes[k].attempt)
      && (forall i | 0 <= i < |t.queue| && !t.queue[i].state.Claimed? :: t.queue[i].owner == None && t.queue[i].expires == None)
  {
    EmptySound();
    HistorySound(EMPTY, ops);
    var t := History(EMPTY, ops);
    hide History, HasTrial, Earned, HasVerdict, Noted, NotesFitRow;
    forall i | 0 <= i < |t.queue|
      ensures t.queue[i].state.Succeeded? <==> HasVerdict(t, t.queue[i].trial)
      ensures !t.queue[i].state.Claimed? ==> t.queue[i].owner == None && t.queue[i].expires == None
    {
      RowOfSound(t, i);
    }
    forall j, k | 0 <= j < k < |t.notes| && t.notes[j].kind.ClaimedNote? && t.notes[k].kind.ClaimedNote?
      ensures t.notes[j].trial != t.notes[k].trial || t.notes[j].attempt != t.notes[k].attempt {
      assert WrittenNote(t, t.notes[j]) && WrittenNote(t, t.notes[k]);
      assert t.notes[j].key != t.notes[k].key;
    }
  }

  // ---- A lost lease --------------------------------------------------------

  /** The claim is of an earlier attempt, or its own attempt is no longer claimed. */
  predicate Gone(r: Row, c: Claim) {
    r.trial == c.trial && (c.attempt < r.attempt || (c.attempt == r.attempt && !r.state.Claimed?))
  }

  lemma ActKeepsGone(r: Row, a: Act, c: Claim)
    requires MayAct(r, a) && Gone(r, c)
    ensures Gone(Changed(r, a), c)
  {
  }

  lemma OpKeepsGone(t: Tables, op: Op, c: Claim, i: nat)
    requires Sound(t) && i < |t.queue| && Gone(t.queue[i], c)
    ensures i < |After(t, op).queue| && Gone(After(t, op).queue[i], c)
  {
    hide Sound, Gone, Register, Fail, Move, Steps;
    if op.OpRegister? {
      RegisterKnown(t, op.study, op.trials);
      if op.study !in t.studies && Register(t, op.study, op.trials).Ok? {
        RegisterMeans(t, op.study, op.trials);
      }
    } else if ClaimKnown(t, op) {
      OpMoves(t, op);
      if Apply(t, op).Ok? {
        var picked, a :| IsMove(t, op, picked, a);
        MoveSound(t, picked, a);
        if i in picked {
          ActKeepsGone(t.queue[i], a, c);
        }
      }
    } else {
      FailOfUnknownStudy(t, op.claim, op.now);
    }
  }

  lemma {:induction false} HistoryKeepsGone(t: Tables, ops: seq<Op>, c: Claim, i: nat)
    requires Sound(t) && i < |t.queue| && Gone(t.queue[i], c)
    ensures i < |History(t, ops).queue| && Gone(History(t, ops).queue[i], c)
    decreases |ops|
  {
    hide Sound, Gone, After;
    if ops != [] {
      var front := ops[..|ops| - 1];
      HistoryKeepsGone(t, front, c, i);
      HistorySound(t, front);
      OpKeepsGone(History(t, front), ops[|ops| - 1], c, i);
    }
  }

  /**
   * A worker whose lease was lost, by reclaim, release or cancellation, writes nothing any
   * more: after any further history each of its writes is refused as a lost lease.
   */
  lemma {:induction false} LostForever(t: Tables, ops: seq<Op>, c: Claim, i: nat, now: int, lease: int)
    requires Sound(t) && i < |t.queue| && Gone(t.queue[i], c) && lease > 0
    ensures var later := History(t, ops);
      && Complete(later, c, now) == Err(LeaseLost)
      && Fail(later, c, now) == Err(LeaseLost)
      && Renew(later, c, now, lease) == Err(LeaseLost)
  {
    HistoryKeepsGone(t, ops, c, i);
    HistorySound(t, ops);
    var later := History(t, ops);
    TrialsApart(later);
    hide Sound, History, Move;
    var k := IndexOf(later.queue, c.trial).value;
    assert later.queue[k].trial == later.queue[i].trial;
    hide IndexOf;
    assert k == i;
  }

  // ---- A held lease --------------------------------------------------------

  /** An operation of somebody else, before the lease runs out, that does not cancel the study. */
  predicate Foreign(r: Row, op: Op) {
    match op
    case OpClaim(_, _, _, now, _, _) => r.expires.Some? && now < r.expires.value
    case OpRenew(c, _, _) => !IsHolder(r, c)
    case OpComplete(c, _) => !IsHolder(r, c)
    case OpFail(c, _) => !IsHolder(r, c)
    case OpCancel(study) => study != r.study
    case _ => true
  }

  predicate IsHolder(r: Row, c: Claim) {
    c.trial == r.trial && c.attempt == r.attempt && r.owner == Some(c.worker)
  }

  lemma MoveLeaves(t: Tables, picked: seq<nat>, a: Act, i: nat)
    requires i < |t.queue| && i !in picked
    ensures match Move(t, picked, a)
            case Err(_) => true
            case Ok(after) => i < |after.queue| && after.queue[i] == t.queue[i]
  {
    var ns := AllNotes(t.queue, picked, a);
    var first := VerdictStatements(VerdictsFor(a));
    var update := UpdateQueue(Changes(t.queue, picked, a));
    StepsConcat(t, first + [update], NoteStatements(ns));
    StepsConcat(t, first, [update]);
    if Move(t, picked, a).Ok? {
      VerdictsLeaveQueue(t, VerdictsFor(a));
      var t1 := Steps(t, first).value;
      OneStepOnly(t1, update);
      var t2 := Steps(t1, [update]).value;
      NotesLeaveQueue(t2, ns);
    }
  }

  lemma OneStepOnly(t: Tables, s: Statement)
    ensures Steps(t, [s]) == Step(t, s)
  {
    hide Step;
    assert [s][1..] == [];
    if Step(t, s).Some? {
      OneStep(t, s, Step(t, s).value);
    }
  }

  lemma {:induction false} NotesLeaveQueue(t: Tables, ns: seq<Note>)
    ensures match Steps(t, NoteStatements(ns)) case None => true case Some(after) => after.queue == t.queue
    decreases |ns|
  {
    hide AllowsNote;
    if ns != [] && AllowsNote(t, ns[0]) {
      assert NoteStatements(ns)[1..] == NoteStatements(ns[1..]);
      NotesLeaveQueue(t.(notes := t.notes + [ns[0]]), ns[1..]);
    }
  }

  lemma {:induction false} VerdictsLeaveQueue(t: Tables, vs: seq<Verdict>)
    ensures match Steps(t, VerdictStatements(vs)) case None => true case Some(after) => after.queue == t.queue
    decreases |vs|
  {
    hide AllowsVerdict;
    if vs != [] && AllowsVerdict(t, vs[0]) {
      assert VerdictStatements(vs)[1..] == VerdictStatements(vs[1..]);
      VerdictsLeaveQueue(t.(verdicts := t.verdicts + [vs[0]]), vs[1..]);
    }
  }

  lemma HeldLeaves(t: Tables, c: Claim, now: int, i: nat)
    requires i < |t.queue| && !IsHolder(t.queue[i], c)
    ensures HeldRow(t, c, now).Ok? ==> HeldRow(t, c, now).value != i
  {
  }

  lemma OpLeavesRow(t: Tables, op: Op, i: nat)
    requires Sound(t) && i < |t.queue| && t.queue[i].state.Claimed? && Foreign(t.queue[i], op)
    ensures i < |After(t, op).queue| && After(t, op).queue[i] == t.queue[i]
  {
    hide Sound, Move, Register, Pick, FailedRows, OpenRows, HeldRow, IsWorker;
    match op
    case OpRegister(study, trials) =>
      RegisterKnown(t, study, trials);
      if study !in t.studies && Register(t, study, trials).Ok? {
        RegisterMeans(t, study, trials);
      }
    case OpClaim(study, worker, limit, now, lease, locked) =>
      if limit > 0 {
        MoveLeaves(t, Pick(t.queue, Candidates(t.queue, study, now, locked), limit), Claiming(worker, now + lease), i);
      }
    case OpRenew(c, now, lease) =>
      HeldLeaves(t, c, now, i);
      if HeldRow(t, c, now).Ok? {
        MoveLeaves(t, [HeldRow(t, c, now).value], Renewing(now + lease), i);
      }
    case OpComplete(c, now) =>
      HeldLeaves(t, c, now, i);
      if HeldRow(t, c, now).Ok? {
        MoveLeaves(t, [HeldRow(t, c, now).value], Completing(c), i);
      }
    case OpFail(c, now) =>
      HeldLeaves(t, c, now, i);
      if HeldRow(t, c, now).Ok? {
        MoveLeaves(t, [HeldRow(t, c, now).value], Failing(c), i);
      }
    case OpRetry(study) =>
      MoveLeaves(t, FailedRows(t.queue, study, |t.queue|), Retrying, i);
    case OpCancel(study) =>
      MoveLeaves(t, OpenRows(t.queue, study, |t.queue|), Cancelling, i);
  }

  /** A lease protects its trial: nothing anybody else does before it runs out touches the row. */
  lemma {:induction false} LeaseProtects(t: Tables, ops: seq<Op>, i: nat)
    requires Sound(t) && i < |t.queue| && t.queue[i].state.Claimed?
    requires forall k | 0 <= k < |ops| :: Foreign(t.queue[i], ops[k])
    ensures i < |History(t, ops).queue| && History(t, ops).queue[i] == t.queue[i]
    decreases |ops|
  {
    hide Sound, Foreign, After;
    if ops != [] {
      var front := ops[..|ops| - 1];
      LeaseProtects(t, front, i);
      HistorySound(t, front);
      OpLeavesRow(History(t, front), ops[|ops| - 1], i);
    }
  }

  /** So whoever holds it completes it: after any such history the completion is taken. */
  lemma HolderCompletes(t: Tables, ops: seq<Op>, c: Claim, i: nat, now: int)
    requires Sound(t) && i < |t.queue| && t.queue[i].state.Claimed? && IsHolder(t.queue[i], c)
    requires t.queue[i].expires.Some? && now < t.queue[i].expires.value && c.study in t.studies
    requires forall k | 0 <= k < |ops| :: Foreign(t.queue[i], ops[k])
    ensures Complete(History(t, ops), c, now).Ok?
  {
    LeaseProtects(t, ops, i);
    HistorySound(t, ops);
    var later := History(t, ops);
    TrialsApart(later);
    assert c.study in later.studies;
    hide Sound, History, Foreign;
    HolderHeld(later, c, i, now);
    hide HeldRow, Follows;
    HeldMoves(later, c, now, Completing(c));
    MoveSound(later, [i], Completing(c));
    hide Move, MayMove, Moved;
  }

  lemma HolderHeld(t: Tables, c: Claim, i: nat, now: int)
    requires forall j, k | 0 <= j < k < |t.queue| :: t.queue[j].trial != t.queue[k].trial
    requires i < |t.queue| && t.queue[i].state.Claimed? && IsHolder(t.queue[i], c)
    requires t.queue[i].expires.Some? && now < t.queue[i].expires.value
    ensures HeldRow(t, c, now) == Ok(i)
  {
    var k := IndexOf(t.queue, c.trial).value;
    assert t.queue[k].trial == t.queue[i].trial;
    hide IndexOf;
    assert k == i;
  }
}
