/**
 * What the queue operations keep: the database never refuses them, a result is owed to the
 * one claim of its attempt, and a claim that lost its lease can write nothing any more.
 */
module TrialLedgerFacts {
  import opened Wrappers
  import Text
  import opened TrialQueue
  import opened TrialLedger

  // ---- The invariant -------------------------------------------------------

  /** The events a trial may have by now: none of later attempts, and of this one those that lead to its state. */
  predicate NoteFits(r: Row, attempt: int, kind: Kind) {
    && attempt <= r.attempt
    && (attempt == r.attempt ==>
          match r.state
          case Claimed => kind.ClaimedNote?
          case Pending => kind.ClaimedNote? || kind.FailedNote? || kind.RetryNote?
          case Failed => kind.ClaimedNote? || kind.FailedNote?
          case Succeeded => kind.ClaimedNote? || kind.SucceededNote?
          case Cancelled => true)
  }

  ghost predicate WrittenNote(t: Tables, n: Note) {
    n.key == Key(n.trial, n.attempt, n.kind) && HasTrial(t, n.trial)
  }

  ghost predicate NotesWritten(t: Tables) {
    forall k | 0 <= k < |t.notes| :: WrittenNote(t, t.notes[k])
  }

  ghost predicate NotesFitRow(t: Tables, r: Row) {
    forall k | 0 <= k < |t.notes| && t.notes[k].trial == r.trial :: NoteFits(r, t.notes[k].attempt, t.notes[k].kind)
  }

  /** The worker's claim of this attempt is on record. */
  ghost predicate Noted(t: Tables, trial: nat, attempt: int, worker: string) {
    exists k :: 0 <= k < |t.notes| && t.notes[k].key == Key(trial, attempt, ClaimedNote) && t.notes[k].worker == Some(worker)
  }

  ghost predicate HasVerdict(t: Tables, trial: nat) {
    exists v :: 0 <= v < |t.verdicts| && t.verdicts[v].trial == trial
  }

  ghost predicate RowSound(t: Tables, r: Row) {
    && RowChecks(r) && WholeLease(r) && r.study in t.studies
    && (r.state.Claimed? ==> r.attempt > 0 && Text.NotBlank(r.owner.value) && Noted(t, r.trial, r.attempt, r.owner.value))
    && (r.state.Succeeded? <==> HasVerdict(t, r.trial))
    && NotesFitRow(t, r)
  }

  ghost predicate RowsSound(t: Tables) {
    forall i | 0 <= i < |t.queue| :: RowSound(t, t.queue[i])
  }

  /** A result's trial SUCCEEDED in the result's attempt, and that attempt was claimed by the result's worker. */
  ghost predicate Earned(t: Tables, v: Verdict) {
    && Noted(t, v.trial, v.attempt, v.worker)
    && exists i :: 0 <= i < |t.queue| && t.queue[i].trial == v.trial && t.queue[i].state.Succeeded? && t.queue[i].attempt == v.attempt
  }

  ghost predicate VerdictsEarned(t: Tables) {
    forall v | 0 <= v < |t.verdicts| :: Earned(t, t.verdicts[v])
  }

  ghost predicate Sound(t: Tables) {
    Kept(t) && NotesWritten(t) && RowsSound(t) && VerdictsEarned(t)
  }

  // ---- One row's move ------------------------------------------------------

  /** What each operation has checked of the rows it picks. */
  predicate MayAct(r: Row, a: Act) {
    match a
    case Claiming(worker, _) => (r.state.Pending? || r.state.Claimed?) && IsWorker(worker)
    case Renewing(_) => r.state.Claimed?
    case Completing(c) => r.state.Claimed? && r.trial == c.trial && r.attempt == c.attempt && r.owner == Some(c.worker)
    case Failing(c) => r.state.Claimed? && r.trial == c.trial && r.attempt == c.attempt && r.owner == Some(c.worker)
    case Retrying => r.state.Failed?
    case Cancelling => !Terminal(r.state)
  }

  lemma ActKeepsRow(r: Row, a: Act)
    requires RowChecks(r) && WholeLease(r) && MayAct(r, a)
    ensures var now := Changed(r, a);
      && Guard(r, now) && RowChecks(now) && WholeLease(now)
      && forall attempt, kind | NoteFits(r, attempt, kind) :: NoteFits(now, attempt, kind)
  {
  }

  predicate DistinctKeys(ns: seq<Note>) {
    forall j, k | 0 <= j < k < |ns| :: ns[j].key != ns[k].key
  }

  lemma ActWritesNotes(r: Row, a: Act)
    requires RowChecks(r) && MayAct(r, a)
    ensures var ns := NotesFor(r, a);
      && (forall n | n in ns :: && n.key == Key(r.trial, n.attempt, n.kind) && n.trial == r.trial && n.attempt >= 0
                                && !NoteFits(r, n.attempt, n.kind) && NoteFits(Changed(r, a), n.attempt, n.kind)
                                && (n.study == r.study || ((a.Completing? || a.Failing?) && n.study == a.claim.study)))
      && DistinctKeys(ns)
  {
  }

  lemma WorkerNotBlank(worker: string)
    requires IsWorker(worker)
    ensures Text.NotBlank(worker)
  {
    assert worker[0] != ' ';
  }

  // ---- The statements of a move --------------------------------------------

  lemma {:induction false} StepsConcat(t: Tables, a: seq<Statement>, b: seq<Statement>)
    ensures Steps(t, a + b) == match Steps(t, a) case None => None case Some(mid) => Steps(mid, b)
    decreases |a|
  {
    hide Step;
    if a == [] {
      assert a + b == b;
    } else {
      assert (a + b)[1..] == a[1..] + b;
      match Step(t, a[0])
      case None =>
      case Some(next) => StepsConcat(next, a[1..], b);
    }
  }

  /** Events that may be inserted one after the other. */
  ghost predicate Insertable(t: Tables, ns: seq<Note>) {
    && (forall k | 0 <= k < |ns| :: ns[k].attempt >= 0 && HasTrial(t, ns[k].trial) && ns[k].study in t.studies)
    && (forall j, k | 0 <= j < |t.notes| && 0 <= k < |ns| :: t.notes[j].key != ns[k].key)
    && DistinctKeys(ns)
  }

  lemma {:induction false} NotesInserted(t: Tables, ns: seq<Note>)
    requires Insertable(t, ns)
    ensures Steps(t, NoteStatements(ns)) == Some(t.(notes := t.notes + ns))
    decreases |ns|
  {
    if ns == [] {
      assert t.notes + ns == t.notes;
    } else {
      var next := t.(notes := t.notes + [ns[0]]);
      TrialsSurvive(t, next);
      hide HasTrial;
      assert next.notes + ns[1..] == t.notes + ns;
      assert Insertable(next, ns[1..]);
      NotesInserted(next, ns[1..]);
      assert AllowsNote(t, ns[0]);
      assert NoteStatements(ns)[1..] == NoteStatements(ns[1..]);
      assert Step(t, NoteStatements(ns)[0]) == Some(next);
    }
  }

  /** What the rows a move picks must be. */
  ghost predicate MayMove(t: Tables, picked: seq<nat>, a: Act) {
    && (forall i | i in picked :: i < |t.queue| && MayAct(t.queue[i], a))
    && (forall j, k | 0 <= j < k < |picked| :: picked[j] != picked[k])
    && ((a.Completing? || a.Failing?) ==> a.claim.study in t.studies)
    && (a.Completing? ==> |picked| == 1)
  }

  /** Where the move's events come from. */
  ghost predicate FromRow(q: seq<Row>, picked: seq<nat>, a: Act, n: Note, i: nat) {
    i in picked && i < |q| && n in NotesFor(q[i], a)
  }

  lemma {:induction false} AllNotesFrom(q: seq<Row>, picked: seq<nat>, a: Act)
    ensures forall n | n in AllNotes(q, picked, a) :: exists i: nat :: FromRow(q, picked, a, n, i)
    ensures forall n, i: nat | FromRow(q, picked, a, n, i) :: n in AllNotes(q, picked, a)
    decreases |picked|
  {
    hide NotesFor;
    if picked != [] {
      var rest := picked[1..];
      AllNotesFrom(q, rest, a);
      forall n | n in AllNotes(q, picked, a) ensures exists i: nat :: FromRow(q, picked, a, n, i) {
        if n in AllNotes(q, rest, a) {
          var i: nat :| FromRow(q, rest, a, n, i);
          assert FromRow(q, picked, a, n, i);
        } else {
          assert FromRow(q, picked, a, n, picked[0]);
        }
      }
      forall n, i: nat | FromRow(q, picked, a, n, i) ensures n in AllNotes(q, picked, a) {
        if i != picked[0] {
          assert FromRow(q, rest, a, n, i);
        }
      }
    }
  }

  lemma {:induction false} AllNotesDistinct(q: seq<Row>, picked: seq<nat>, a: Act)
    requires forall i | i in picked :: i < |q| && RowChecks(q[i]) && MayAct(q[i], a)
    requires forall j, k | 0 <= j < k < |picked| :: picked[j] != picked[k]
    requires forall i, j | 0 <= i < j < |q| :: q[i].trial != q[j].trial
    ensures DistinctKeys(AllNotes(q, picked, a))
    decreases |picked|
  {
    hide NotesFor, MayAct, RowChecks, NoteFits;
    if picked != [] {
      assert picked[0] in picked;
      var head, rest := NotesFor(q[picked[0]], a), AllNotes(q, picked[1..], a);
      AllNotesDistinct(q, picked[1..], a);
      ActWritesNotes(q[picked[0]], a);
      AllNotesFrom(q, picked[1..], a);
      assert forall k | 0 <= k < |picked[1..]| :: picked[1..][k] == picked[k + 1] && picked[k + 1] != picked[0];
      forall n | n in rest ensures n.key.trial != q[picked[0]].trial {
        var i: nat :| FromRow(q, picked[1..], a, n, i);
        assert i in picked && i != picked[0];
        ActWritesNotes(q[i], a);
        assert q[i].trial != q[picked[0]].trial;
      }
      assert forall n | n in head :: n.key.trial == q[picked[0]].trial;
      assert AllNotes(q, picked, a) == head + rest;
      DistinctJoin(head, rest, q[picked[0]].trial);
    }
  }

  lemma DistinctJoin(head: seq<Note>, rest: seq<Note>, trial: nat)
    requires DistinctKeys(head) && DistinctKeys(rest)
    requires forall n | n in head :: n.key.trial == trial
    requires forall n | n in rest :: n.key.trial != trial
    ensures DistinctKeys(head + rest)
  {
    var ns := head + rest;
    forall j, k | 0 <= j < k < |ns| ensures ns[j].key != ns[k].key {
      if j < |head| <= k {
        assert head[j] in head && rest[k - |head|] in rest;
      }
    }
  }

  // ---- A move is taken -----------------------------------------------------

  function Moved(t: Tables, picked: seq<nat>, a: Act): Tables {
    t.(verdicts := t.verdicts + VerdictsFor(a),
       queue := Updated(t.queue, Changes(t.queue, picked, a)),
       notes := t.notes + AllNotes(t.queue, picked, a))
  }

  lemma RowOfSound(t: Tables, i: nat)
    requires Sound(t) && i < |t.queue|
    ensures RowSound(t, t.queue[i]) && HasTrial(t, t.queue[i].trial) && t.queue[i].study in t.studies
    ensures RowChecks(t.queue[i]) && WholeLease(t.queue[i])
  {
    hide RowChecks, NotesFitRow, HasVerdict, Noted, NotesWritten, VerdictsEarned;
  }

  /** The row an event of the move is about, and how the event fits it. */
  lemma NoteOrigin(t: Tables, picked: seq<nat>, a: Act, n: Note) returns (i: nat)
    requires Sound(t) && MayMove(t, picked, a) && n in AllNotes(t.queue, picked, a)
    ensures i in picked && i < |t.queue| && n.trial == t.queue[i].trial
    ensures n.key == Key(n.trial, n.attempt, n.kind)
    ensures n.attempt >= 0 && HasTrial(t, n.trial) && n.study in t.studies
    ensures !NoteFits(t.queue[i], n.attempt, n.kind) && NoteFits(Changed(t.queue[i], a), n.attempt, n.kind)
  {
    AllNotesFrom(t.queue, picked, a);
    i :| FromRow(t.queue, picked, a, n, i);
    RowOfSound(t, i);
    hide Sound, NotesFor, MayAct, NoteFits, HasTrial, RowChecks;
    ActWritesNotes(t.queue[i], a);
  }

  lemma NoteInsertable(t: Tables, picked: seq<nat>, a: Act, n: Note)
    requires Sound(t) && MayMove(t, picked, a) && n in AllNotes(t.queue, picked, a)
    ensures n.attempt >= 0 && HasTrial(t, n.trial) && n.study in t.studies
    ensures forall j | 0 <= j < |t.notes| :: t.notes[j].key != n.key
  {
    var i := NoteOrigin(t, picked, a, n);
    RowOfSound(t, i);
    hide MayMove, RowChecks, Kept, RowsSound, VerdictsEarned, NoteFits, HasTrial, Noted, HasVerdict;
    forall j | 0 <= j < |t.notes| ensures t.notes[j].key != n.key {
      assert t.notes[j].trial == t.queue[i].trial ==> NoteFits(t.queue[i], t.notes[j].attempt, t.notes[j].kind);
    }
  }

  lemma MoveInsertable(t: Tables, picked: seq<nat>, a: Act)
    requires Sound(t) && MayMove(t, picked, a)
    ensures Insertable(t, AllNotes(t.queue, picked, a))
  {
    var ns := AllNotes(t.queue, picked, a);
    forall i | i in picked ensures i < |t.queue| && RowChecks(t.queue[i]) && MayAct(t.queue[i], a) {
      RowOfSound(t, i);
    }
    TrialsApart(t);
    hide RowChecks, MayAct, Sound, HasTrial, DistinctKeys;
    AllNotesDistinct(t.queue, picked, a);
    forall k | 0 <= k < |ns|
      ensures ns[k].attempt >= 0 && HasTrial(t, ns[k].trial) && ns[k].study in t.studies
      ensures forall j | 0 <= j < |t.notes| :: t.notes[j].key != ns[k].key
    {
      NoteInsertable(t, picked, a, ns[k]);
    }
  }

  lemma TrialsApart(t: Tables)
    requires Sound(t)
    ensures forall i, j | 0 <= i < j < |t.queue| :: t.queue[i].trial != t.queue[j].trial
  {
  }

  lemma MoveUpdates(t: Tables, picked: seq<nat>, a: Act)
    requires Sound(t) && MayMove(t, picked, a)
    ensures AllowsUpdate(t.queue, Changes(t.queue, picked, a))
  {
    forall i: nat | i in picked && i < |t.queue|
      ensures Guard(t.queue[i], Changed(t.queue[i], a)) && RowChecks(Changed(t.queue[i], a)) {
      RowOfSound(t, i);
      ActKeepsRow(t.queue[i], a);
    }
    hide Guard, RowChecks, Changed, Sound;
  }

  /** The one result a completion writes is the first of its trial. */
  lemma VerdictTaken(t: Tables, picked: seq<nat>, c: Claim)
    requires Sound(t) && MayMove(t, picked, Completing(c))
    ensures AllowsVerdict(t, Verdict(c.trial, c.study, c.attempt, c.worker))
  {
    assert picked[0] in picked;
    var r := t.queue[picked[0]];
    RowOfSound(t, picked[0]);
    hide Sound, HasTrial, NotesFitRow, Noted;
    forall v | 0 <= v < |t.verdicts| ensures t.verdicts[v].trial != c.trial {
      assert !HasVerdict(t, c.trial);
    }
  }

  lemma MoveCommits(t: Tables, picked: seq<nat>, a: Act)
    requires Sound(t) && MayMove(t, picked, a)
    ensures Move(t, picked, a) == Ok(Moved(t, picked, a))
    ensures Kept(Moved(t, picked, a)) && Follows(t, Moved(t, picked, a))
  {
    assert Kept(t);
    hide Sound, MayMove, Insertable, AllowsUpdate, Kept, Steps, Follows;
    var ns := AllNotes(t.queue, picked, a);
    var first := VerdictStatements(VerdictsFor(a));
    var update := UpdateQueue(Changes(t.queue, picked, a));
    var t1 := t.(verdicts := t.verdicts + VerdictsFor(a));
    var t2 := t1.(queue := Updated(t.queue, Changes(t.queue, picked, a)));
    VerdictSteps(t, picked, a);
    MoveUpdates(t, picked, a);
    OneStep(t1, update, t2);
    MoveInsertable(t, picked, a);
    InsertableStill(t, t2, ns);
    NotesInserted(t2, ns);
    StepsConcat(t, first + [update], NoteStatements(ns));
    StepsConcat(t, first, [update]);
    StepsKeep(t, first + [update] + NoteStatements(ns));
  }

  lemma OneStep(t: Tables, s: Statement, after: Tables)
    requires Step(t, s) == Some(after)
    ensures Steps(t, [s]) == Some(after)
  {
    hide Step;
    assert [s][1..] == [];
    assert Steps(after, []) == Some(after);
  }

  lemma InsertableStill(t: Tables, after: Tables, ns: seq<Note>)
    requires Insertable(t, ns) && after.notes == t.notes && after.trials == t.trials && after.studies == t.studies
    ensures Insertable(after, ns)
  {
    TrialsSurvive(t, after);
    hide HasTrial, DistinctKeys;
  }

  lemma VerdictSteps(t: Tables, picked: seq<nat>, a: Act)
    requires Sound(t) && MayMove(t, picked, a)
    ensures Steps(t, VerdictStatements(VerdictsFor(a))) == Some(t.(verdicts := t.verdicts + VerdictsFor(a)))
  {
    if a.Completing? {
      VerdictTaken(t, picked, a.claim);
      hide Sound, MayMove, AllowsVerdict;
      var v := VerdictsFor(a)[0];
      var ss := VerdictStatements(VerdictsFor(a));
      assert VerdictsFor(a) == [v] && VerdictsFor(a)[1..] == [] && VerdictStatements([]) == [];
      assert ss == [InsertVerdict(v)] && ss[1..] == [];
      var next := t.(verdicts := t.verdicts + [v]);
      assert Step(t, ss[0]) == Some(next);
      assert Steps(next, []) == Some(next);
    } else {
      assert VerdictsFor(a) == [] && t.verdicts + [] == t.verdicts;
    }
  }

  // ---- A move keeps the invariant ------------------------------------------

  lemma NotedSurvives(t: Tables, after: Tables, trial: nat, attempt: int, worker: string)
    requires t.notes <= after.notes && Noted(t, trial, attempt, worker)
    ensures Noted(after, trial, attempt, worker)
  {
    var k :| 0 <= k < |t.notes| && t.notes[k].key == Key(trial, attempt, ClaimedNote) && t.notes[k].worker == Some(worker);
    assert after.notes[k] == t.notes[k];
  }

  lemma WrittenAfter(t: Tables, picked: seq<nat>, a: Act)
    requires Sound(t) && MayMove(t, picked, a)
    ensures NotesWritten(Moved(t, picked, a))
  {
    var ns := AllNotes(t.queue, picked, a);
    forall k | 0 <= k < |ns| ensures WrittenNote(t, ns[k]) {
      var i := NoteOrigin(t, picked, a, ns[k]);
    }
    assert forall k | 0 <= k < |t.notes| :: WrittenNote(t, t.notes[k]);
    hide Sound, MayMove, AllNotes, WrittenNote;
    WrittenJoin(t, Moved(t, picked, a), ns);
  }

  lemma WrittenJoin(t: Tables, after: Tables, ns: seq<Note>)
    requires after.notes == t.notes + ns && after.trials == t.trials
    requires forall k | 0 <= k < |ns| :: WrittenNote(t, ns[k])
    requires forall k | 0 <= k < |t.notes| :: WrittenNote(t, t.notes[k])
    ensures NotesWritten(after)
  {
    TrialsSurvive(t, after);
    hide HasTrial;
    forall k | 0 <= k < |after.notes| ensures WrittenNote(after, after.notes[k]) {
      assert WrittenNote(t, after.notes[k]);
    }
  }

  /** The events of each trial still fit its row. */
  lemma FitAfter(t: Tables, picked: seq<nat>, a: Act, i: nat)
    requires Sound(t) && MayMove(t, picked, a) && i < |t.queue|
    ensures NotesFitRow(Moved(t, picked, a), Moved(t, picked, a).queue[i])
  {
    var after := Moved(t, picked, a);
    var ns := AllNotes(t.queue, picked, a);
    var was, now := t.queue[i], after.queue[i];
    RowOfSound(t, i);
    if i in picked {
      ActKeepsRow(was, a);
    }
    TrialsApart(t);
    assert NotesFitRow(t, was);
    hide NoteFits, Sound, MayMove, RowSound, Changed, AllNotes;
    assert now == if i in picked then Changed(was, a) else was;
    assert now.trial == was.trial && forall attempt, kind | NoteFits(was, attempt, kind) :: NoteFits(now, attempt, kind);
    forall k | 0 <= k < |after.notes| && after.notes[k].trial == now.trial
      ensures NoteFits(now, after.notes[k].attempt, after.notes[k].kind) {
      if k < |t.notes| {
        assert after.notes[k] == t.notes[k];
      } else {
        assert after.notes[k] == ns[k - |t.notes|];
        var j := NoteOrigin(t, picked, a, ns[k - |t.notes|]);
        assert i == j;
      }
    }
  }

  /** A claim is put on record. */
  lemma ClaimNoted(t: Tables, picked: seq<nat>, a: Act, i: nat)
    requires a.Claiming? && i in picked && i < |t.queue|
    ensures Noted(Moved(t, picked, a), t.queue[i].trial, t.queue[i].attempt + 1, a.worker)
  {
    var was, after := t.queue[i], Moved(t, picked, a);
    var n := NoteOf(was, was.attempt + 1, ClaimedNote, Some(a.worker));
    assert NotesFor(was, a)[|NotesFor(was, a)| - 1] == n;
    AllNotesFrom(t.queue, picked, a);
    assert FromRow(t.queue, picked, a, n, i);
    var k :| 0 <= k < |AllNotes(t.queue, picked, a)| && AllNotes(t.queue, picked, a)[k] == n;
    hide AllNotes;
    assert after.notes[|t.notes| + k] == n;
  }

  /** A row that is CLAIMED after the move has its claim on record. */
  lemma ClaimAfter(t: Tables, picked: seq<nat>, a: Act, i: nat)
    requires Sound(t) && MayMove(t, picked, a) && i < |t.queue|
    ensures var after := Moved(t, picked, a); var now := after.queue[i];
      && RowChecks(now) && WholeLease(now) && now.study in t.studies
      && (now.state.Claimed? ==> now.attempt > 0 && Text.NotBlank(now.owner.value) && Noted(after, now.trial, now.attempt, now.owner.value))
  {
    var after := Moved(t, picked, a);
    var was, now := t.queue[i], after.queue[i];
    RowOfSound(t, i);
    if i in picked {
      ActKeepsRow(was, a);
    }
    hide Sound, Text.NotBlank, Noted, NotesFitRow, HasVerdict, AllNotes, NoteFits, IsWorker;
    if a.Claiming? && i in picked {
      WorkerNotBlank(a.worker);
      ClaimNoted(t, picked, a, i);
    } else if now.state.Claimed? {
      assert was.state.Claimed? && now.attempt == was.attempt && now.owner == was.owner && now.trial == was.trial;
      NotedSurvives(t, after, was.trial, was.attempt, was.owner.value);
    }
  }

  lemma VerdictAfter(t: Tables, picked: seq<nat>, a: Act, i: nat)
    requires Sound(t) && MayMove(t, picked, a) && i < |t.queue|
    ensures var after := Moved(t, picked, a);
      after.queue[i].state.Succeeded? <==> HasVerdict(after, after.queue[i].trial)
  {
    var after := Moved(t, picked, a);
    var was, now := t.queue[i], after.queue[i];
    RowOfSound(t, i);
    assert now.trial == was.trial;
    assert forall v | 0 <= v < |t.verdicts| :: after.verdicts[v] == t.verdicts[v];
    if a.Completing? {
      assert picked[0] in picked && t.queue[picked[0]].trial == a.claim.trial;
      assert forall k | k in picked :: k == picked[0];
      assert after.verdicts[|t.verdicts|].trial == a.claim.trial;
      assert i != picked[0] ==> was.trial != a.claim.trial;
      hide Sound, MayMove, NotesFitRow, Noted;
    } else {
      assert after.verdicts == t.verdicts;
      hide Sound, MayMove, NotesFitRow, Noted;
    }
  }

  lemma EarnedAfter(t: Tables, picked: seq<nat>, a: Act, v: nat)
    requires Sound(t) && MayMove(t, picked, a) && v < |Moved(t, picked, a).verdicts|
    ensures Earned(Moved(t, picked, a), Moved(t, picked, a).verdicts[v])
  {
    var after := Moved(t, picked, a);
    var d := after.verdicts[v];
    hide Kept, NotesWritten, Noted;
    if v < |t.verdicts| {
      assert d == t.verdicts[v] && Earned(t, d);
      NotedSurvives(t, after, d.trial, d.attempt, d.worker);
      var i :| 0 <= i < |t.queue| && t.queue[i].trial == d.trial && t.queue[i].state.Succeeded? && t.queue[i].attempt == d.attempt;
      assert i !in picked;
      assert after.queue[i] == t.queue[i];
    } else {
      var i := picked[0];
      assert i in picked && a.Completing? && d == VerdictsFor(a)[0];
      RowOfSound(t, i);
      NotedSurvives(t, after, d.trial, d.attempt, d.worker);
      assert after.queue[i] == Changed(t.queue[i], a);
    }
  }

  lemma {:induction false} MoveSound(t: Tables, picked: seq<nat>, a: Act)
    requires Sound(t) && MayMove(t, picked, a)
    ensures Move(t, picked, a) == Ok(Moved(t, picked, a)) && Sound(Moved(t, picked, a)) && Follows(t, Moved(t, picked, a))
  {
    var after := Moved(t, picked, a);
    MoveCommits(t, picked, a);
    WrittenAfter(t, picked, a);
    forall i | 0 <= i < |after.queue| ensures RowSound(after, after.queue[i]) {
      FitAfter(t, picked, a, i);
      ClaimAfter(t, picked, a, i);
      VerdictAfter(t, picked, a, i);
      hide MayMove, Sound, RowChecks, WholeLease, NotesFitRow, HasVerdict, Noted, Text.NotBlank, Move;
    }
    forall v | 0 <= v < |after.verdicts| ensures Earned(after, after.verdicts[v]) {
      EarnedAfter(t, picked, a, v);
    }
    hide MayMove, RowSound, Earned, Kept, NotesWritten, Move, Moved, Follows;
  }
}
