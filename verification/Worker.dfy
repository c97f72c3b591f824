/**
 * The research terminal worker: it claims commands, runs them, keeps a table of the runner
 * processes it started, and writes every outcome to the ledger.
 *
 * `Desk` is the worker's whole state as a value: the ledger and its two tables. What the
 * gate, a handler, a process or the disk answers is an input.
 */
module Worker {
  import opened Wrappers
  import opened TerminalCommands

  const MAX_RUNNERS := 6

  datatype Desk = Desk(book: Book, children: map<nat, nat>, childKinds: map<nat, Kind>)

  datatype Gate = GatePasses | GateBlocks | GateRaises
  /** How a one-shot command's child ends; a result file that is there can be read. */
  datatype Bounded = Finished(state: State) | TimedOut | NoResult

  /** What the world answers while one command executes; `pid` is that of a spawned process. */
  datatype Answers = Answers(gate: Gate, bounded: Bounded, spawned: bool, pid: nat, stopped: bool)

  datatype Reply = Done | Refused | Raised

  // ---- Handlers ------------------------------------------------------------

  /** A running command, among those the ledger shows, that asks for the very same runner. */
  predicate SameRunnerShown(b: Book, c: Command) {
    exists id :: id in RunningShown(b) && b.command[id] == c
  }

  function StartRunner(d: Desk, id: nat, c: Command, ans: Answers): (Desk, Reply) {
    if SameRunnerShown(d.book, c) then (d, Refused)
    else if |d.children| >= MAX_RUNNERS then (d, Refused)
    else if !ans.spawned then (d, Raised)
    else (d.(children := d.children[id := ans.pid], childKinds := d.childKinds[id := c.kind]), Done)
  }

  function StartKindOf(k: Kind): Kind {
    if k == ResearchWatchStop then ResearchWatchStart else PaperIncubationStart
  }

  function StopRunner(d: Desk, c: Command, name: string, ans: Answers): (Desk, Reply) {
    if !c.inputs.StopInputs? || c.inputs.startId !in d.children then (d, Refused)
    else
      var startId := c.inputs.startId;
      if startId !in d.childKinds || d.childKinds[startId] != StartKindOf(c.kind) then (d, Refused)
      else if !ans.stopped then (d, Raised)
      else
        var popped := d.(children := d.children - {startId}, childKinds := d.childKinds - {startId});
        match Recorded(d.book, startId, Event(Stopped, name))
        case Err(_) => (popped, Raised)
        case Ok(book) => (popped.(book := book), Done)
  }

  /** The outcome state of a handler's reply. */
  function OutcomeOf(k: Kind, r: Reply): State {
    match r
    case Done => if IsRunnerKind(k) then Running else Succeeded
    case Refused => Blocked
    case Raised => Failed
  }

  /** What a one-shot command's child process leaves behind. */
  function BoundedState(b: Book, id: nat, ans: Answers): State {
    match ans.bounded
    case TimedOut => Failed
    case NoResult => Failed
    case Finished(s) =>
      if !LatestIs(b, id, Claimed) then Failed
      else if s.Succeeded? || s.Blocked? then s
      else Failed
  }

  /** The handler part of `execute`: the desk it leaves, and the state to record. */
  function Handle(d: Desk, id: nat, c: Command, name: string, ans: Answers): (Desk, State) {
    if IsBoundedKind(c.kind) then (d, BoundedState(d.book, id, ans))
    else if IsRunnerKind(c.kind) then
      var (after, reply) := StartRunner(d, id, c, ans);
      (after, OutcomeOf(c.kind, reply))
    else
      var (after, reply) := StopRunner(d, c, name, ans);
      (after, OutcomeOf(c.kind, reply))
  }

  function Gated(d: Desk, id: nat, c: Command, name: string, ans: Answers): (Desk, State) {
    match ans.gate
    case GateBlocks => (d, Blocked)
    case GateRaises => (d, Failed)
    case GatePasses => Handle(d, id, c, name, ans)
  }

  /** `execute`: the gate, the handler, and exactly one recorded outcome; `Err` when the ledger refuses it. */
  function Execute(d: Desk, id: nat, name: string, ans: Answers): (Desk, Option<LedgerError>) {
    if id !in d.book.command then (d, Some(CommandNotFound))
    else
      var (after, state) := Gated(d, id, d.book.command[id], name, ans);
      match Recorded(after.book, id, Event(state, name))
      case Err(e) => (after, Some(e))
      case Ok(book) => (after.(book := book), None)
  }

  // ---- Turns of the loop ---------------------------------------------------

  /** `reap`: runners whose process has exited leave both tables and are recorded EXITED. */
  function Reaped(d: Desk, gone: set<nat>, name: string): Desk {
    var ids := set id | id in d.children && id in gone;
    Desk(AppendEach(d.book, ids, Event(Exited, name)), d.children - ids, d.childKinds - ids)
  }

  /** `kinds_now`. */
  function KindsNow(lowDisk: bool): set<Kind> {
    set k: Kind | IsWorkerKind(k) && !(lowDisk && IsHeavyKind(k))
  }

  /** `claim`, and what was claimed. */
  function ClaimNext(d: Desk, name: string, lowDisk: bool): (Desk, Option<nat>) {
    match Oldest(d.book, d.book.order, KindsNow(lowDisk))
    case None => (d, None)
    case Some(id) => (d.(book := Append(d.book, id, Event(Claimed, name))), Some(id))
  }

  /** What the API does between two turns. */
  function Arrived(b: Book, arrivals: seq<ApiAct>): Book {
    if arrivals == [] then b
    else Acted(Arrived(b, arrivals[..|arrivals| - 1]), arrivals[|arrivals| - 1])
  }

  datatype Turn = Turn(arrivals: seq<ApiAct>, gone: set<nat>, lowDisk: bool, answers: Answers)

  /** One turn: arrivals, reap, claim, execute. The flag says whether a command was claimed. */
  function TurnOf(d: Desk, t: Turn, name: string): (Desk, bool, Option<LedgerError>) {
    var reaped := Reaped(d.(book := Arrived(d.book, t.arrivals)), t.gone, name);
    var (claimed, id) := ClaimNext(reaped, name, t.lowDisk);
    match id
    case None => (claimed, false, None)
    case Some(n) =>
      var (after, error) := Execute(claimed, n, name, t.answers);
      (after, true, error)
  }

  /** The runners the ledger shows as running that an earlier worker of this host started. */
  function Orphans(b: Book, prefix: string): set<nat> {
    set id | id in RunningShown(b) && prefix <= Latest(b, id).worker
  }

  /** The start of a worker: claims abandoned on this host fail, and runners it shows as running have exited. */
  function StartUp(b: Book, prefix: string, name: string): Desk {
    var settled := AppendEach(b, ClaimedUnder(b, prefix), Event(Failed, name));
    Desk(AppendEach(settled, Orphans(settled, prefix), Event(Exited, name)), map[], map[])
  }

  /** The end of a worker: every runner still in the table is stopped and recorded. */
  function ShutDown(d: Desk, name: string): Book {
    var open := set id | id in d.children && Recorded(d.book, id, Event(Stopped, name)).Ok?;
    AppendEach(d.book, open, Event(Stopped, name))
  }

  /** The loop over the turns: it ends at its head, by an idle turn of a `--once` worker or an interrupt. */
  function Turns(d: Desk, turns: seq<Turn>, name: string, once: bool): (Desk, Option<LedgerError>)
    decreases |turns|
  {
    if turns == [] then (d, None)
    else
      var (after, claimed, error) := TurnOf(d, turns[0], name);
      if error.Some? then (after, error)
      else if once && !claimed then (after, None)
      else Turns(after, turns[1..], name, once)
  }

  /** A whole run of a worker process. */
  function Run(b: Book, turns: seq<Turn>, prefix: string, name: string, once: bool): (Book, Option<LedgerError>) {
    var (d, error) := Turns(StartUp(b, prefix, name), turns, name, once);
    (ShutDown(d, name), error)
  }

  // ---- The tables and the ledger agree -------------------------------------

  predicate RunsFor(b: Book, id: nat, name: string) {
    Latest(b, id) == Event(Running, name)
  }

  predicate ClaimedFor(b: Book, id: nat, name: string) {
    Latest(b, id) == Event(Claimed, name)
  }

  /** The two tables hold the same commands, at most six, each under its own kind. */
  ghost predicate TablesMatch(d: Desk) {
    && d.childKinds.Keys == d.children.Keys
    && |d.children| <= MAX_RUNNERS
    && (forall id | id in d.children :: id in d.book.command && d.childKinds[id] == d.book.command[id].kind)
  }

  /** These are exactly the commands this worker last recorded as RUNNING. */
  ghost predicate Mirrors(ids: set<nat>, b: Book, name: string) {
    forall id :: id in ids <==> RunsFor(b, id, name)
  }

  ghost predicate NoClaims(b: Book, name: string) {
    forall id :: !ClaimedFor(b, id, name)
  }

  /**
   * The invariant of the loop head: what this worker last recorded as RUNNING is exactly
   * what its tables hold and what was already lost when it started, and it holds no claim.
   * Nothing is lost unless the host's process numbers came round: see `RestartAgrees`.
   */
  ghost predicate Agrees(d: Desk, lost: set<nat>, name: string) {
    && Valid(d.book)
    && TablesMatch(d)
    && d.children.Keys !! lost
    && Mirrors(d.children.Keys + lost, d.book, name)
    && NoClaims(d.book, name)
  }

  lemma InTheBook(b: Book, id: nat)
    requires !Latest(b, id).state.Blocked?
    ensures id in b.log
  {
  }

  lemma ActedMirrors(b: Book, r: ApiAct, ids: set<nat>, name: string)
    requires Mirrors(ids, b, name) && NoClaims(b, name)
    ensures Mirrors(ids, Acted(b, r), name) && NoClaims(Acted(b, r), name)
  {
    ActedLatest(b, r);
    var after := Acted(b, r);
    hide Acted, Latest;
    forall id
      ensures RunsFor(after, id, name) <==> RunsFor(b, id, name)
      ensures ClaimedFor(after, id, name) <==> ClaimedFor(b, id, name)
    {
    }
  }

  lemma ActedAgrees(d: Desk, r: ApiAct, lost: set<nat>, name: string)
    requires Agrees(d, lost, name)
    ensures Agrees(d.(book := Acted(d.book, r)), lost, name)
  {
    ActedValid(d.book, r);
    ActedMirrors(d.book, r, d.children.Keys + lost, name);
    ActedLatest(d.book, r);
    hide Valid, Mirrors, NoClaims, Acted, Latest;
  }

  lemma {:induction false} ArrivedAgrees(d: Desk, arrivals: seq<ApiAct>, lost: set<nat>, name: string)
    requires Agrees(d, lost, name)
    ensures Agrees(d.(book := Arrived(d.book, arrivals)), lost, name)
  {
    hide Agrees, Acted;
    if arrivals != [] {
      var front := arrivals[..|arrivals| - 1];
      ArrivedAgrees(d, front, lost, name);
      ActedAgrees(d.(book := Arrived(d.book, front)), arrivals[|arrivals| - 1], lost, name);
    }
  }

  /** Ending some of the running commands takes exactly these from the mirror. */
  lemma EndedMirrors(b: Book, running: set<nat>, ids: set<nat>, e: Event, name: string)
    requires Mirrors(running, b, name) && NoClaims(b, name) && ids <= running && IsEnd(e.state)
    requires Valid(b)
    ensures Valid(AppendEach(b, ids, e)) && Mirrors(running - ids, AppendEach(b, ids, e), name)
    ensures NoClaims(AppendEach(b, ids, e), name) && AppendEach(b, ids, e).command == b.command
  {
    forall id | id in ids ensures id in b.log && May(b.command[id].kind, Latest(b, id).state, e.state) {
      assert RunsFor(b, id, name);
      InTheBook(b, id);
    }
    AppendEachValid(b, ids, e);
    AppendEachLatest(b, ids, e);
    hide AppendEach, Valid, Latest;
    var after := AppendEach(b, ids, e);
    forall id
      ensures RunsFor(after, id, name) <==> RunsFor(b, id, name) && id !in ids
      ensures !ClaimedFor(after, id, name)
    {
      assert !ClaimedFor(b, id, name);
    }
    AppendEachAt(b, ids, e);
  }

  lemma ReapedAgrees(d: Desk, gone: set<nat>, lost: set<nat>, name: string)
    requires Agrees(d, lost, name)
    ensures Agrees(Reaped(d, gone, name), lost, name)
  {
    hide Valid, Mirrors, NoClaims, AppendEach;
    var ids := set id | id in d.children && id in gone;
    EndedMirrors(d.book, d.children.Keys + lost, ids, Event(Exited, name), name);
    LostApart(d.children.Keys, lost, ids);
    FewerChildren(d.children, ids);
    assert (d.children - ids).Keys == d.children.Keys - ids;
  }

  lemma LostApart(held: set<nat>, lost: set<nat>, ids: set<nat>)
    requires held !! lost && ids <= held
    ensures (held + lost) - ids == (held - ids) + lost
  {
  }

  lemma FewerChildren(m: map<nat, nat>, ids: set<nat>)
    ensures |m - ids| <= |m|
  {
    assert m.Keys == (m - ids).Keys + (m.Keys * ids);
  }

  /** Between claim and outcome: the invariant, but for one claim. */
  ghost predicate Holding(d: Desk, id: nat, lost: set<nat>, name: string) {
    && Valid(d.book)
    && TablesMatch(d)
    && d.children.Keys !! lost
    && Mirrors(d.children.Keys + lost, d.book, name)
    && ClaimedFor(d.book, id, name)
    && (forall k | k != id :: !ClaimedFor(d.book, k, name))
  }

  /** A claim takes the oldest claimable command; without one, none is claimable. */
  lemma {:induction false} ClaimHolds(d: Desk, lost: set<nat>, name: string, lowDisk: bool)
    requires Agrees(d, lost, name)
    ensures var (after, id) := ClaimNext(d, name, lowDisk);
      && (id.Some? ==> Holding(after, id.value, lost, name) && id.value in d.book.log && !ClaimedFor(d.book, id.value, name)
                       && after.book.command == d.book.command && after.book.command[id.value].kind in KindsNow(lowDisk)
                       && after.children == d.children)
      && (id.None? ==> after == d && forall n :: !Claimable(d.book, n, KindsNow(lowDisk)))
  {
    var (after, id) := ClaimNext(d, name, lowDisk);
    match id
    case None =>
      forall n ensures !Claimable(d.book, n, KindsNow(lowDisk)) {
        if Claimable(d.book, n, KindsNow(lowDisk)) {
          InTheBook(d.book, n);
        }
      }
    case Some(n) =>
      InTheBook(d.book, n);
      RecordMay(d.book, n, Event(Claimed, name));
      AppendedMirrors(d.book, n, Event(Claimed, name), d.children.Keys + lost, name);
  }

  /** One more event on a command that was not running leaves the mirror, if the event is not RUNNING. */
  lemma AppendedMirrors(b: Book, id: nat, e: Event, ids: set<nat>, name: string)
    requires Mirrors(ids, b, name) && id in b.log
    ensures !e.state.Running? ==> Mirrors(ids - {id}, Append(b, id, e), name)
    ensures e == Event(Running, name) ==> Mirrors(ids + {id}, Append(b, id, e), name)
    ensures forall k :: ClaimedFor(Append(b, id, e), k, name) <==> if k == id then e == Event(Claimed, name) else ClaimedFor(b, k, name)
    ensures !RunsFor(b, id, name) ==> ids - {id} == ids
  {
    AppendLatest(b, id, e);
    hide Append, Latest;
    var after := Append(b, id, e);
    forall k ensures RunsFor(after, k, name) <==> if k == id then e == Event(Running, name) else RunsFor(b, k, name) {
    }
    forall k ensures k in ids <==> RunsFor(b, k, name) {
    }
  }

  /** Recording the outcome of a claim: accepted, and the claim is gone. */
  lemma OutcomeRecorded(b: Book, id: nat, e: Event, ids: set<nat>, name: string)
    requires Valid(b) && Mirrors(ids, b, name) && ClaimedFor(b, id, name)
    requires IsOutcome(e.state) || (e == Event(Running, name) && id in b.command && IsRunnerKind(b.command[id].kind))
    ensures Recorded(b, id, e) == Ok(Append(b, id, e)) && Valid(Append(b, id, e)) && Append(b, id, e).command == b.command
    ensures Mirrors(if e.state.Running? then ids + {id} else ids, Append(b, id, e), name)
    ensures id !in ids && forall k :: ClaimedFor(Append(b, id, e), k, name) <==> k != id && ClaimedFor(b, k, name)
  {
    InTheBook(b, id);
    RecordMay(b, id, e);
    AppendedMirrors(b, id, e, ids, name);
    assert !RunsFor(b, id, name);
    hide Valid, Recorded, Append;
  }

  /** An outcome that starts no runner. */
  lemma FinishPlain(d: Desk, id: nat, s: State, lost: set<nat>, name: string)
    requires Holding(d, id, lost, name) && IsOutcome(s)
    ensures Recorded(d.book, id, Event(s, name)) == Ok(Append(d.book, id, Event(s, name)))
    ensures Agrees(d.(book := Append(d.book, id, Event(s, name))), lost, name)
  {
    hide Valid, Recorded, Latest, Mirrors, Append, ClaimedFor;
    OutcomeRecorded(d.book, id, Event(s, name), d.children.Keys + lost, name);
  }

  lemma OneMoreChild(d: Desk, id: nat, pid: nat, lost: set<nat>)
    requires TablesMatch(d) && |d.children| < MAX_RUNNERS && id in d.book.command
    requires d.children.Keys !! lost && id !in lost
    ensures var more := d.(children := d.children[id := pid], childKinds := d.childKinds[id := d.book.command[id].kind]);
      TablesMatch(more) && more.children.Keys !! lost && more.children.Keys + lost == (d.children.Keys + lost) + {id}
  {
  }

  lemma TablesKeep(d: Desk, after: Book)
    requires TablesMatch(d) && after.command == d.book.command
    ensures TablesMatch(d.(book := after))
  {
  }

  /** A runner that was started: it enters both tables and is recorded RUNNING. */
  lemma FinishStarted(d: Desk, id: nat, pid: nat, lost: set<nat>, name: string)
    requires Holding(d, id, lost, name) && |d.children| < MAX_RUNNERS && id in d.book.command
    requires IsRunnerKind(d.book.command[id].kind)
    ensures Recorded(d.book, id, Event(Running, name)) == Ok(Append(d.book, id, Event(Running, name)))
    ensures Agrees(Desk(Append(d.book, id, Event(Running, name)), d.children[id := pid],
                        d.childKinds[id := d.book.command[id].kind]), lost, name)
  {
    InTheBook(d.book, id);
    hide Valid, Recorded, Latest, Mirrors, Append, TablesMatch;
    var book := Append(d.book, id, Event(Running, name));
    StartedRecorded(d.book, id, d.children.Keys + lost, name);
    OneMoreChild(d, id, pid, lost);
    var more := d.(children := d.children[id := pid], childKinds := d.childKinds[id := d.book.command[id].kind]);
    TablesKeep(more, book);
    hide NoClaims, ClaimedFor;
  }

  lemma StartedRecorded(b: Book, id: nat, ids: set<nat>, name: string)
    requires Valid(b) && Mirrors(ids, b, name) && ClaimedFor(b, id, name) && forall k | k != id :: !ClaimedFor(b, k, name)
    requires id in b.command && IsRunnerKind(b.command[id].kind)
    ensures var e := Event(Running, name); var after := Append(b, id, e);
      && Recorded(b, id, e) == Ok(after) && Valid(after) && after.command == b.command
      && Mirrors(ids + {id}, after, name) && NoClaims(after, name) && id !in ids
  {
    hide Valid, Recorded, Latest, Mirrors, Append, ClaimedFor;
    OutcomeRecorded(b, id, Event(Running, name), ids, name);
  }

  /** Recording the end of a running command: accepted, and claims are untouched. */
  lemma EndRecorded(b: Book, id: nat, e: Event, ids: set<nat>, name: string)
    requires Valid(b) && Mirrors(ids, b, name) && id in ids && IsEnd(e.state)
    ensures id in b.log
    ensures Recorded(b, id, e) == Ok(Append(b, id, e)) && Valid(Append(b, id, e)) && Append(b, id, e).command == b.command
    ensures Mirrors(ids - {id}, Append(b, id, e), name)
    ensures !ClaimedFor(b, id, name) && forall k :: ClaimedFor(Append(b, id, e), k, name) <==> ClaimedFor(b, k, name)
  {
    assert RunsFor(b, id, name);
    InTheBook(b, id);
    RecordMay(b, id, e);
    AppendedMirrors(b, id, e, ids, name);
    hide Valid, Recorded, Append;
  }

  /** The end of a tracked runner is taken by the ledger, and the agreement is kept. */
  lemma ReapTaken(d: Desk, id: nat, lost: set<nat>, name: string)
    requires Agrees(d, lost, name) && id in d.children
    ensures id in d.book.log
    ensures var after := Append(d.book, id, Event(Exited, name));
      && Recorded(d.book, id, Event(Exited, name)) == Ok(after)
      && Agrees(Desk(after, d.children - {id}, d.childKinds - {id}), lost, name)
  {
    hide Valid, Recorded, Latest, Mirrors, Append, ClaimedFor;
    EndRecorded(d.book, id, Event(Exited, name), d.children.Keys + lost, name);
    LostApart(d.children.Keys, lost, {id});
    FewerChildren(d.children, {id});
    assert (d.children - {id}).Keys == d.children.Keys - {id};
  }

  /** A runner that was stopped: it leaves both tables and is recorded STOPPED. */
  lemma StopHolds(d: Desk, id: nat, startId: nat, lost: set<nat>, name: string)
    requires Holding(d, id, lost, name) && startId in d.children
    ensures startId in d.book.log
    ensures Recorded(d.book, startId, Event(Stopped, name)) == Ok(Append(d.book, startId, Event(Stopped, name)))
    ensures Holding(Desk(Append(d.book, startId, Event(Stopped, name)), d.children - {startId}, d.childKinds - {startId}),
                    id, lost, name)
  {
    hide Valid, Recorded, Latest, Mirrors, Append, ClaimedFor;
    EndRecorded(d.book, startId, Event(Stopped, name), d.children.Keys + lost, name);
    LostApart(d.children.Keys, lost, {startId});
    FewerChildren(d.children, {startId});
    assert (d.children - {startId}).Keys == d.children.Keys - {startId};
  }

  lemma StopHandled(d: Desk, id: nat, c: Command, lost: set<nat>, name: string, ans: Answers)
    requires Holding(d, id, lost, name)
    ensures Holding(StopRunner(d, c, name, ans).0, id, lost, name)
  {
    hide Holding, Recorded, Append;
    if c.inputs.StopInputs? && c.inputs.startId in d.children {
      StopHolds(d, id, c.inputs.startId, lost, name);
    }
  }

  /**
   * Executing a claimed command: the ledger takes the outcome, it is exactly one event on
   * that command, and the tables and the ledger agree again.
   */
  lemma {:induction false} ExecuteAgrees(d: Desk, id: nat, lost: set<nat>, name: string, ans: Answers)
    requires Holding(d, id, lost, name) && id in d.book.command && IsWorkerKind(d.book.command[id].kind)
    ensures var (after, error) := Execute(d, id, name, ans);
      error.None? && Agrees(after, lost, name)
  {
    hide Holding, Recorded, StopRunner, Agrees, BoundedState;
    var c := d.book.command[id];
    var (after, state) := Gated(d, id, c, name, ans);
    BoundedOutcome(d.book, id, ans);
    if ans.gate.GatePasses? && IsRunnerKind(c.kind) && StartRunner(d, id, c, ans).1.Done? {
      FinishStarted(d, id, ans.pid, lost, name);
    } else {
      StopHandled(d, id, c, lost, name, ans);
      FinishPlain(after, id, state, lost, name);
    }
  }

  lemma BoundedOutcome(b: Book, id: nat, ans: Answers)
    ensures IsOutcome(BoundedState(b, id, ans))
  {
  }

  /** One turn keeps the agreement, and the ledger never refuses an outcome. */
  lemma {:induction false} TurnAgrees(d: Desk, t: Turn, lost: set<nat>, name: string)
    requires Agrees(d, lost, name)
    ensures var (after, claimed, error) := TurnOf(d, t, name); error.None? && Agrees(after, lost, name)
  {
    hide Agrees, Reaped, Arrived, ClaimNext, Execute, Holding;
    var arrived := d.(book := Arrived(d.book, t.arrivals));
    ArrivedAgrees(d, t.arrivals, lost, name);
    ReapedAgrees(arrived, t.gone, lost, name);
    var reaped := Reaped(arrived, t.gone, name);
    ClaimHolds(reaped, lost, name, t.lowDisk);
    var (claimed, id) := ClaimNext(reaped, name, t.lowDisk);
    if id.Some? {
      HoldsKnown(claimed, id.value, lost, name);
      ExecuteAgrees(claimed, id.value, lost, name, t.answers);
    }
  }

  lemma HoldsKnown(d: Desk, id: nat, lost: set<nat>, name: string)
    requires Holding(d, id, lost, name)
    ensures id in d.book.command
  {
    InTheBook(d.book, id);
  }

  lemma {:induction false} TurnsAgree(d: Desk, turns: seq<Turn>, lost: set<nat>, name: string, once: bool)
    requires Agrees(d, lost, name)
    ensures Turns(d, turns, name, once).1.None? && Agrees(Turns(d, turns, name, once).0, lost, name)
    decreases |turns|
  {
    hide Agrees, TurnOf;
    if turns != [] {
      TurnAgrees(d, turns[0], lost, name);
      var (after, claimed, error) := TurnOf(d, turns[0], name);
      if claimed || !once {
        TurnsAgree(after, turns[1..], lost, name, once);
      }
    }
  }
}
