/**
 * The table of the worker: which outcome a claimed command gets, read off its kind, the
 * ledger, the two tables and what the world answers; and what one turn of the loop does.
 */
module WorkerTable {
  import opened Wrappers
  import opened TerminalCommands
  import opened Worker

  // ---- The ledger's answer -------------------------------------------------

  /** Whether and why an event is refused, on any ledger in order. */
  lemma {:induction false} RecordedExactly(b: Book, id: nat, e: Event)
    requires Valid(b)
    ensures var r := Recorded(b, id, e);
      && (r == Err(CommandNotFound) <==> id !in b.log)
      && (r == Err(CommandAlreadyTerminal) <==>
            id in b.log && Latest(b, id).state in {Blocked, Succeeded, Failed, Stopped, Exited})
      && (r == Err(OutcomeAlreadyRecorded) <==>
            && id in b.log && Latest(b, id).state in {Requested, Claimed, Running} && e.state in {Claimed, Running}
            && exists i :: 0 <= i < |b.log[id]| && b.log[id][i].state == e.state)
      && (r.Ok? ==> && id in b.log && r.value.order == b.order && r.value.command == b.command
                    && r.value.log == b.log[id := b.log[id] + [e]])
  {
    if id in b.log {
      LatestOfValid(b, id);
      assert ValidCommand(b.command[id], b.log[id]);
    }
    hide Valid, WellTyped;
  }

  // ---- One command ---------------------------------------------------------

  predicate OneShot(k: Kind) {
    k in {StrategySearch, CandidateFreeze, DecimalRerun, PreregistrationRecord, HoldoutOpen, HoldoutValidate}
  }

  /** One of the newest 500 commands is running with the same kind and inputs. */
  ghost predicate LikeShown(b: Book, c: Command) {
    exists i: nat :: |b.order| - 500 <= i < |b.order| && Latest(b, b.order[i]).state == Running
                     && b.order[i] in b.command && b.command[b.order[i]] == c
  }

  ghost predicate NoRoom(d: Desk, c: Command) {
    LikeShown(d.book, c) || |d.children| >= 6
  }

  /** The runner to stop is in the worker's tables, as one of the kind this command stops. */
  predicate Owns(d: Desk, c: Command) {
    && c.inputs.StopInputs? && c.inputs.startId in d.children && c.inputs.startId in d.childKinds
    && d.childKinds[c.inputs.startId] == (if c.kind == ResearchWatchStop then ResearchWatchStart else PaperIncubationStart)
  }

  /** When a claimed command gets this outcome. */
  ghost predicate Row(s: State, d: Desk, c: Command, ans: Answers) {
    match s
    case Blocked =>
      || ans.gate.GateBlocks?
      || (ans.gate.GatePasses? && OneShot(c.kind) && ans.bounded == Finished(Blocked))
      || (ans.gate.GatePasses? && c.kind in {ResearchWatchStart, PaperIncubationStart} && NoRoom(d, c))
      || (ans.gate.GatePasses? && c.kind in {ResearchWatchStop, PaperIncubationStop} && !Owns(d, c))
    case Failed =>
      || ans.gate.GateRaises?
      || (ans.gate.GatePasses? && OneShot(c.kind) && ans.bounded != Finished(Blocked) && ans.bounded != Finished(Succeeded))
      || (ans.gate.GatePasses? && c.kind in {ResearchWatchStart, PaperIncubationStart} && !NoRoom(d, c) && !ans.spawned)
      || (ans.gate.GatePasses? && c.kind in {ResearchWatchStop, PaperIncubationStop} && Owns(d, c) && !ans.stopped)
    case Running =>
      ans.gate.GatePasses? && c.kind in {ResearchWatchStart, PaperIncubationStart} && !NoRoom(d, c) && ans.spawned
    case Succeeded =>
      || (ans.gate.GatePasses? && OneShot(c.kind) && ans.bounded == Finished(Succeeded))
      || (ans.gate.GatePasses? && c.kind in {ResearchWatchStop, PaperIncubationStop} && Owns(d, c) && ans.stopped)
    case _ => false
  }

  /** A runner is stopped on the way. */
  predicate StopsRunner(d: Desk, c: Command, ans: Answers) {
    ans.gate.GatePasses? && c.kind in {ResearchWatchStop, PaperIncubationStop} && Owns(d, c) && ans.stopped
  }

  /** One more event on this command, and on no other. */
  ghost predicate OneEvent(b: Book, after: Book, id: nat, e: Event) {
    id in b.log && after == b.(log := b.log[id := b.log[id] + [e]])
  }

  lemma LikeIsShown(b: Book, c: Command)
    requires IsRunnerKind(c.kind)
    ensures SameRunnerShown(b, c) <==> LikeShown(b, c)
  {
    hide Latest;
    if SameRunnerShown(b, c) {
      var id :| id in RunningShown(b) && b.command[id] == c;
      var k :| 0 <= k < |Newest(b)| && Newest(b)[k] == id;
      var i := k + |b.order| - |Newest(b)|;
      assert b.order[i] == id;
    }
    if LikeShown(b, c) {
      var i: nat :| |b.order| - 500 <= i < |b.order| && Latest(b, b.order[i]).state == Running
                    && b.order[i] in b.command && b.command[b.order[i]] == c;
      assert Newest(b)[i - (|b.order| - |Newest(b)|)] == b.order[i];
      assert b.order[i] in Newest(b);
      assert b.order[i] in RunningShown(b);
    }
  }

  lemma OutcomeTaken(d: Desk, id: nat, s: State, lost: set<nat>, name: string)
    requires Holding(d, id, lost, name) && id in d.book.command
    requires IsOutcome(s) || (s.Running? && IsRunnerKind(d.book.command[id].kind))
    ensures id in d.book.log && Recorded(d.book, id, Event(s, name)) == Ok(Append(d.book, id, Event(s, name)))
    ensures LatestIs(d.book, id, Claimed)
  {
    InTheBook(d.book, id);
    OutcomeRecorded(d.book, id, Event(s, name), d.children.Keys + lost, name);
    hide Valid, Mirrors, TablesMatch, Recorded, Append;
  }

  lemma RowsApart(d: Desk, c: Command, ans: Answers, s: State, t: State)
    requires Row(s, d, c, ans) && Row(t, d, c, ans)
    ensures s == t
  {
    hide LikeShown, Owns;
  }

  lemma Typed(d: Desk, id: nat, lost: set<nat>, name: string)
    requires Holding(d, id, lost, name) && id in d.book.command
    ensures WellTyped(d.book.command[id])
  {
    hide ValidEvents, Ordered, Mirrors, TablesMatch;
    assert ValidCommand(d.book.command[id], d.book.log[id]);
  }

  /** What gate and handler make of it, before the outcome is recorded. */
  lemma GatedTable(d: Desk, id: nat, name: string, ans: Answers)
    requires id in d.book.command && LatestIs(d.book, id, Claimed)
    requires IsWorkerKind(d.book.command[id].kind) && WellTyped(d.book.command[id])
    ensures var c := d.book.command[id]; var (after, s) := Gated(d, id, c, name, ans);
      && (!StopsRunner(d, c, ans) ==>
            && Row(s, d, c, ans) && after.book == d.book
            && after.children == (if s.Running? then d.children[id := ans.pid] else d.children)
            && after.childKinds == (if s.Running? then d.childKinds[id := c.kind] else d.childKinds)
            && (IsOutcome(s) || (s.Running? && IsRunnerKind(c.kind))))
      && (StopsRunner(d, c, ans) ==>
            && (after, s) == (StopRunner(d, c, name, ans).0, OutcomeOf(c.kind, StopRunner(d, c, name, ans).1)))
  {
    hide LikeShown, SameRunnerShown, Recorded, LatestIs;
    var c := d.book.command[id];
    if IsRunnerKind(c.kind) {
      LikeIsShown(d.book, c);
    }
  }

  /** The desk after a stop that goes through. */
  function Popped(d: Desk, k: nat, name: string): Desk
    requires k in d.book.log
  {
    Desk(Append(d.book, k, Event(Stopped, name)), d.children - {k}, d.childKinds - {k})
  }

  lemma StopAnswers(d: Desk, id: nat, lost: set<nat>, name: string, ans: Answers)
    requires Holding(d, id, lost, name) && id in d.book.command && IsWorkerKind(d.book.command[id].kind)
    requires StopsRunner(d, d.book.command[id], ans)
    ensures var c := d.book.command[id]; var k := c.inputs.startId;
      && k in d.book.log && Holding(Popped(d, k, name), id, lost, name)
      && Gated(d, id, c, name, ans) == (Popped(d, k, name), Succeeded)
  {
    StopHolds(d, id, d.book.command[id].inputs.startId, lost, name);
    hide Holding, Recorded, Append;
  }

  /** A stop that goes through. */
  lemma StopTable(d: Desk, id: nat, lost: set<nat>, name: string, ans: Answers) returns (mid: Book)
    requires Holding(d, id, lost, name) && id in d.book.command && IsWorkerKind(d.book.command[id].kind)
    requires StopsRunner(d, d.book.command[id], ans)
    ensures var (after, error) := Execute(d, id, name, ans); var c := d.book.command[id];
      && error.None? && Row(Succeeded, d, c, ans)
      && after.children == d.children - {c.inputs.startId} && after.childKinds == d.childKinds - {c.inputs.startId}
      && OneEvent(d.book, mid, c.inputs.startId, Event(Stopped, name))
      && OneEvent(mid, after.book, id, Event(Succeeded, name))
  {
    hide Holding, Recorded, LikeShown, Gated;
    StopAnswers(d, id, lost, name, ans);
    var popped := Popped(d, d.book.command[id].inputs.startId, name);
    mid := popped.book;
    OutcomeTaken(popped, id, Succeeded, lost, name);
  }

  /** The events of the others are as they were. */
  lemma OneEventLatest(b: Book, after: Book, id: nat, e: Event)
    requires OneEvent(b, after, id, e)
    ensures Latest(after, id) == e
  {
  }

  /**
   * The table of one execution: the claimed command gets an outcome exactly when it meets
   * that row. A start that goes through enters both tables; a stop that does takes its runner
   * from both and records it STOPPED; nothing else changes the tables, and no other command
   * gets an event.
   */
  lemma {:induction false} ExecuteTable(d: Desk, id: nat, lost: set<nat>, name: string, ans: Answers, s: State)
    requires Holding(d, id, lost, name) && id in d.book.command && IsWorkerKind(d.book.command[id].kind)
    ensures var (after, error) := Execute(d, id, name, ans);
      var c := d.book.command[id];
      && error.None?
      && (Latest(after.book, id) == Event(s, name) <==> Row(s, d, c, ans))
      && (Row(s, d, c, ans) ==>
            if StopsRunner(d, c, ans) then
              && after.children == d.children - {c.inputs.startId} && after.childKinds == d.childKinds - {c.inputs.startId}
              && exists mid :: OneEvent(d.book, mid, c.inputs.startId, Event(Stopped, name))
                               && OneEvent(mid, after.book, id, Event(s, name))
            else
              && after.children == (if s.Running? then d.children[id := ans.pid] else d.children)
              && after.childKinds == (if s.Running? then d.childKinds[id := c.kind] else d.childKinds)
              && OneEvent(d.book, after.book, id, Event(s, name)))
  {
    var c := d.book.command[id];
    Typed(d, id, lost, name);
    OutcomeTaken(d, id, Blocked, lost, name);
    if StopsRunner(d, c, ans) {
      var mid := StopTable(d, id, lost, name, ans);
      hide Holding, Execute, OneEvent, Row;
      OneEventLatest(mid, Execute(d, id, name, ans).0.book, id, Event(Succeeded, name));
      if Row(s, d, c, ans) {
        RowsApart(d, c, ans, s, Succeeded);
      }
    } else {
      GatedTable(d, id, name, ans);
      var (_, t) := Gated(d, id, c, name, ans);
      OutcomeTaken(d, id, t, lost, name);
      hide Holding, Gated, Recorded, Row, StopsRunner;
      assert OneEvent(d.book, Execute(d, id, name, ans).0.book, id, Event(t, name));
      OneEventLatest(d.book, Execute(d, id, name, ans).0.book, id, Event(t, name));
      if Row(s, d, c, ans) {
        RowsApart(d, c, ans, s, t);
      }
    }
  }

  // ---- One turn ------------------------------------------------------------

  /** What a turn may claim: requested, of a kind the worker runs, and not heavy while disk is short. */
  ghost predicate Wanted(b: Book, id: nat, lowDisk: bool) {
    && Latest(b, id).state == Requested && id in b.command
    && b.command[id].kind !in {WatchlistRecord, AccountRegister, AccountPolicyRecord}
    && (lowDisk ==> b.command[id].kind in {PreregistrationRecord, HoldoutOpen, ResearchWatchStop, PaperIncubationStop})
  }

  lemma WantedIsClaimable(b: Book, id: nat, lowDisk: bool)
    ensures Claimable(b, id, KindsNow(lowDisk)) <==> Wanted(b, id, lowDisk)
  {
    hide Latest;
  }

  /** Runners of the table whose process is gone. */
  function GoneRunners(d: Desk, gone: set<nat>): set<nat> {
    set id | id in d.children && id in gone
  }

  lemma ReapedLatest(d: Desk, gone: set<nat>, lost: set<nat>, name: string)
    requires Agrees(d, lost, name)
    ensures var r := Reaped(d, gone, name);
      && r.book.order == d.book.order && r.book.command == d.book.command
      && (forall k :: Latest(r.book, k) == if k in GoneRunners(d, gone) then Event(Exited, name) else Latest(d.book, k))
      && r.children == d.children - GoneRunners(d, gone) && r.childKinds == d.childKinds - GoneRunners(d, gone)
  {
    forall id | id in GoneRunners(d, gone) ensures id in d.book.log {
      assert RunsFor(d.book, id, name);
      InTheBook(d.book, id);
    }
    AppendEachLatest(d.book, GoneRunners(d, gone), Event(Exited, name));
    AppendEachAt(d.book, GoneRunners(d, gone), Event(Exited, name));
    hide AppendEach, Latest, Valid;
  }

  /** It is wanted, and nothing that came before it is. */
  ghost predicate FirstWanted(b: Book, id: nat, lowDisk: bool) {
    exists i :: 0 <= i < |b.order| && b.order[i] == id && Wanted(b, id, lowDisk)
                && forall j | 0 <= j < i :: !Wanted(b, b.order[j], lowDisk)
  }

  lemma SameWanted(b: Book, after: Book, id: nat, lowDisk: bool)
    requires after.order == b.order && after.command == b.command
    requires forall k :: Latest(after, k).state == Requested <==> Latest(b, k).state == Requested
    ensures Wanted(after, id, lowDisk) <==> Wanted(b, id, lowDisk)
    ensures FirstWanted(after, id, lowDisk) <==> FirstWanted(b, id, lowDisk)
  {
    assert forall k :: Wanted(after, k, lowDisk) <==> Wanted(b, k, lowDisk);
    hide Wanted, Latest;
  }

  /** A reaped runner is not wanted, and wantedness of all others is as it was. */
  lemma ReapedWanted(d: Desk, gone: set<nat>, lost: set<nat>, name: string, id: nat, lowDisk: bool)
    requires Agrees(d, lost, name)
    ensures var b := Reaped(d, gone, name).book;
      && (Wanted(b, id, lowDisk) <==> Wanted(d.book, id, lowDisk))
      && (FirstWanted(b, id, lowDisk) <==> FirstWanted(d.book, id, lowDisk))
  {
    ReapedLatest(d, gone, lost, name);
    forall k | k in GoneRunners(d, gone) ensures Latest(d.book, k).state == Running {
      assert RunsFor(d.book, k, name);
    }
    hide Reaped, Latest, Agrees, GoneRunners, FirstWanted, Wanted;
    SameWanted(d.book, Reaped(d, gone, name).book, id, lowDisk);
  }

  /** The desk between claim and execution: the gone runners EXITED and out of the tables, this command CLAIMED. */
  ghost predicate HandsOn(d: Desk, gone: set<nat>, held: Desk, id: nat, name: string) {
    && held.book.order == d.book.order && held.book.command == d.book.command
    && held.children == d.children - GoneRunners(d, gone) && held.childKinds == d.childKinds - GoneRunners(d, gone)
    && (forall k :: Latest(held.book, k) ==
          if k == id then Event(Claimed, name)
          else if k in GoneRunners(d, gone) then Event(Exited, name)
          else Latest(d.book, k))
  }

  lemma ClaimLatest(d: Desk, lost: set<nat>, name: string, lowDisk: bool)
    requires Agrees(d, lost, name)
    ensures var (after, id) := ClaimNext(d, name, lowDisk);
      && (id.None? ==> after == d && forall k :: !Wanted(d.book, k, lowDisk))
      && (id.Some? ==>
            && FirstWanted(d.book, id.value, lowDisk) && Holding(after, id.value, lost, name)
            && after.book.order == d.book.order && after.book.command == d.book.command
            && after.children == d.children && after.childKinds == d.childKinds
            && forall k :: Latest(after.book, k) == if k == id.value then Event(Claimed, name) else Latest(d.book, k))
  {
    ClaimHolds(d, lost, name, lowDisk);
    forall k ensures Claimable(d.book, k, KindsNow(lowDisk)) <==> Wanted(d.book, k, lowDisk) {
      WantedIsClaimable(d.book, k, lowDisk);
    }
    var (after, id) := ClaimNext(d, name, lowDisk);
    if id.Some? {
      OldestIsFirst(d.book, d.book.order, KindsNow(lowDisk));
      AppendLatest(d.book, id.value, Event(Claimed, name));
      hide Agrees, Holding, Claimable, Wanted, Latest;
    }
  }

  /** The turn behind the arrivals. */
  function TurnFrom(b: Desk, t: Turn, name: string): (Desk, bool, Option<LedgerError>) {
    var (claimed, id) := ClaimNext(Reaped(b, t.gone, name), name, t.lowDisk);
    match id
    case None => (claimed, false, None)
    case Some(n) =>
      var (after, error) := Execute(claimed, n, name, t.answers);
      (after, true, error)
  }

  lemma TurnFromTable(b: Desk, t: Turn, lost: set<nat>, name: string) returns (held: Desk, id: nat)
    requires Agrees(b, lost, name)
    ensures var (after, claimed, error) := TurnFrom(b, t, name);
      && (claimed <==> exists k :: Wanted(b.book, k, t.lowDisk))
      && (claimed ==> && FirstWanted(b.book, id, t.lowDisk) && HandsOn(b, t.gone, held, id, name)
                      && Holding(held, id, lost, name) && (after, error) == Execute(held, id, name, t.answers))
      && (!claimed ==>
            && error.None?
            && after.children == b.children - GoneRunners(b, t.gone) && after.childKinds == b.childKinds - GoneRunners(b, t.gone)
            && forall k :: Latest(after.book, k) ==
                 if k in GoneRunners(b, t.gone) then Event(Exited, name) else Latest(b.book, k))
  {
    var reaped := Reaped(b, t.gone, name);
    ReapedAgrees(b, t.gone, lost, name);
    ReapedLatest(b, t.gone, lost, name);
    ClaimLatest(reaped, lost, name, t.lowDisk);
    var (claimed, n) := ClaimNext(reaped, name, t.lowDisk);
    held, id := claimed, if n.Some? then n.value else 0;
    hide Agrees, Holding, Reaped, ClaimNext, Execute, FirstWanted, Wanted, GoneRunners, Latest;
    if n.Some? {
      ReapedWanted(b, t.gone, lost, name, id, t.lowDisk);
      FirstIsWanted(b.book, id, t.lowDisk);
      assert Wanted(b.book, id, t.lowDisk);
      HandsOnBoth(b, t.gone, reaped, held, id, name);
      hide HandsOn;
    } else {
      forall k ensures !Wanted(b.book, k, t.lowDisk) {
        ReapedWanted(b, t.gone, lost, name, k, t.lowDisk);
      }
    }
  }

  lemma HandsOnBoth(b: Desk, gone: set<nat>, r: Desk, held: Desk, id: nat, name: string)
    requires r.book.order == b.book.order && r.book.command == b.book.command
    requires r.children == b.children - GoneRunners(b, gone) && r.childKinds == b.childKinds - GoneRunners(b, gone)
    requires forall k :: Latest(r.book, k) == if k in GoneRunners(b, gone) then Event(Exited, name) else Latest(b.book, k)
    requires held.book.order == r.book.order && held.book.command == r.book.command
    requires held.children == r.children && held.childKinds == r.childKinds
    requires forall k :: Latest(held.book, k) == if k == id then Event(Claimed, name) else Latest(r.book, k)
    ensures HandsOn(b, gone, held, id, name)
  {
    hide Latest, GoneRunners;
  }

  lemma FirstIsWanted(b: Book, id: nat, lowDisk: bool)
    requires FirstWanted(b, id, lowDisk)
    ensures Wanted(b, id, lowDisk)
  {
    hide Wanted;
  }

  /**
   * One turn, exactly: the API's acts come first; then every runner of the table whose process
   * is gone leaves both tables and is EXITED; then the first wanted command is claimed and
   * executed, if there is one, and otherwise nothing else happens.
   */
  lemma {:induction false} TurnTable(d: Desk, t: Turn, lost: set<nat>, name: string) returns (held: Desk, id: nat)
    requires Agrees(d, lost, name)
    ensures var b := d.(book := Arrived(d.book, t.arrivals));
      var (after, claimed, error) := TurnOf(d, t, name);
      && error.None?
      && (claimed <==> exists k :: Wanted(b.book, k, t.lowDisk))
      && (claimed ==> && FirstWanted(b.book, id, t.lowDisk) && HandsOn(b, t.gone, held, id, name)
                      && Holding(held, id, lost, name) && after == Execute(held, id, name, t.answers).0)
      && (!claimed ==>
            && after.children == b.children - GoneRunners(b, t.gone) && after.childKinds == b.childKinds - GoneRunners(b, t.gone)
            && forall k :: Latest(after.book, k) ==
                 if k in GoneRunners(b, t.gone) then Event(Exited, name) else Latest(b.book, k))
  {
    TurnAgrees(d, t, lost, name);
    var b := d.(book := Arrived(d.book, t.arrivals));
    ArrivedAgrees(d, t.arrivals, lost, name);
    hide Arrived;
    assert TurnOf(d, t, name) == TurnFrom(b, t, name);
    hide TurnOf;
    held, id := TurnFromTable(b, t, lost, name);
  }

  /** A request is in the ledger after the API's acts of a turn, as the first act for its number asked it. */
  lemma {:induction false} RequestArrives(b: Book, before: seq<ApiAct>, after: seq<ApiAct>, id: nat, c: Command, blocked: bool)
    requires WellTyped(c) && id !in Arrived(b, before).log
    ensures var mid := Arrived(b, before + [Request(id, c, blocked)]);
      && mid.order == Arrived(b, before).order + [id]
      && id in mid.log && mid.log[id] == [Event(if blocked then Blocked else Requested, "")]
    ensures var last := Arrived(b, before + [Request(id, c, blocked)] + after);
      id in last.log && id in last.command && last.command[id] == c
    decreases |after|
  {
    hide WellTyped, WithSettlement;
    var acts := before + [Request(id, c, blocked)];
    assert acts[..|acts| - 1] == before;
    if after == [] {
      assert acts + after == acts;
    } else {
      var front := after[..|after| - 1];
      RequestArrives(b, before, front, id, c, blocked);
      assert (acts + after)[..|acts + after| - 1] == acts + front;
      ActedLatest(Arrived(b, acts + front), after[|after| - 1]);
      hide Acted;
    }
  }

  // ---- The loop ------------------------------------------------------------

  /** The loop goes on behind each of these turns. */
  ghost predicate GoesOn(d: Desk, turns: seq<Turn>, name: string, once: bool)
    decreases |turns|
  {
    turns != [] ==>
      var (after, claimed, error) := TurnOf(d, turns[0], name);
      error.None? && (claimed || !once) && GoesOn(after, turns[1..], name, once)
  }

  /** While the loop goes on it takes turn after turn; a `--once` worker's first idle turn is its last. */
  lemma {:induction false} LoopTakes(d: Desk, turns: seq<Turn>, next: Turn, more: seq<Turn>, name: string, once: bool)
    requires GoesOn(d, turns, name, once)
    ensures Turns(d, turns, name, once).1.None?
    ensures var (after, claimed, error) := TurnOf(Turns(d, turns, name, once).0, next, name);
      Turns(d, turns + [next] + more, name, once) ==
      if error.None? && (claimed || !once) then Turns(after, more, name, once) else (after, error)
    decreases |turns|
  {
    hide TurnOf;
    if turns == [] {
      var all := turns + [next] + more;
      assert all == [next] + more && all[1..] == more;
      assert all[0] == next;
      assert Turns(d, turns, name, once) == (d, None);
      var (after, claimed, error) := TurnOf(d, next, name);
      assert Turns(d, all, name, once) ==
             if error.Some? then (after, error)
             else if once && !claimed then (after, None)
             else Turns(after, all[1..], name, once);
    } else {
      var (after, _, _) := TurnOf(d, turns[0], name);
      LoopTakes(after, turns[1..], next, more, name, once);
      assert (turns + [next] + more)[1..] == turns[1..] + [next] + more;
    }
  }

  /** A worker that does not stop at an idle turn takes them all. */
  lemma {:induction false} LoopGoesOn(d: Desk, turns: seq<Turn>, lost: set<nat>, name: string)
    requires Agrees(d, lost, name)
    ensures GoesOn(d, turns, name, false)
    decreases |turns|
  {
    hide TurnOf, Agrees;
    if turns != [] {
      TurnAgrees(d, turns[0], lost, name);
      LoopGoesOn(TurnOf(d, turns[0], name).0, turns[1..], lost, name);
    }
  }
}
