/**
 * No two runners alike, over a whole run: that is so exactly while no runner is started whose
 * like is at work and hidden from the newest 500 commands.
 */
module WorkerDistinct {
  import opened TerminalCommands
  import opened Worker
  import opened WorkerRuns

  /** The ledger still holds no more commands than a listing shows. */
  predicate AllListed(b: Book) {
    |b.order| <= VIEW_LIMIT
  }

  /** What a step may do and keep all runners different: start none, and restate no command. */
  ghost predicate NoNewRunner(d: Desk, after: Desk) {
    && after.children.Keys <= d.children.Keys
    && forall id | id in d.book.command :: id in after.book.command && after.book.command[id] == d.book.command[id]
  }

  lemma NoNewRunnerDiffers(d: Desk, after: Desk)
    requires TablesMatch(d) && AllDifferent(d) && NoNewRunner(d, after)
    ensures AllDifferent(after)
  {
    forall i, j | i in after.children && j in after.children && i != j && i in after.book.command && j in after.book.command
      ensures after.book.command[i] != after.book.command[j] {
      assert i in d.children && j in d.children;
    }
  }

  lemma {:induction false} ArrivedKeepsCommands(b: Book, arrivals: seq<ApiAct>)
    requires Valid(b)
    ensures Valid(Arrived(b, arrivals)) && |b.order| <= |Arrived(b, arrivals).order|
    ensures forall id | id in b.command :: id in Arrived(b, arrivals).command && Arrived(b, arrivals).command[id] == b.command[id]
  {
    if arrivals != [] {
      var front, last := Arrived(b, arrivals[..|arrivals| - 1]), arrivals[|arrivals| - 1];
      ArrivedKeepsCommands(b, arrivals[..|arrivals| - 1]);
      ActedValid(front, last);
      ActedLatest(front, last);
      hide Ordered, ValidCommand, Latest, WellTyped;
    }
  }

  lemma NoNewRunnerTrans(d: Desk, mid: Desk, after: Desk)
    requires NoNewRunner(d, mid) && NoNewRunner(mid, after)
    ensures NoNewRunner(d, after)
  {
  }

  lemma ReapedKeepsRunners(d: Desk, gone: set<nat>, name: string)
    ensures NoNewRunner(d, Reaped(d, gone, name)) && Reaped(d, gone, name).book.order == d.book.order
  {
    var ended := set k | k in d.children && k in gone;
    AppendEachAt(d.book, ended, Event(Exited, name));
    hide AppendEach;
  }

  lemma ClaimKeepsRunners(d: Desk, name: string, lowDisk: bool)
    requires Valid(d.book)
    ensures NoNewRunner(d, ClaimNext(d, name, lowDisk).0) && ClaimNext(d, name, lowDisk).0.book.order == d.book.order
  {
    hide Oldest, ValidCommand, Ordered;
    var id := Oldest(d.book, d.book.order, KindsNow(lowDisk));
    if id.Some? {
      InTheBook(d.book, id.value);
    }
  }

  /** The part of a turn before anything executes. */
  lemma BeforeExecuting(d: Desk, t: Turn, lost: set<nat>, name: string)
    requires Agrees(d, lost, name)
    ensures var reaped := Reaped(d.(book := Arrived(d.book, t.arrivals)), t.gone, name);
      var (claimed, id) := ClaimNext(reaped, name, t.lowDisk);
      && NoNewRunner(d, claimed)
      && |d.book.order| <= |claimed.book.order|
      && (id.Some? ==> Holding(claimed, id.value, lost, name))
  {
    var arrived := d.(book := Arrived(d.book, t.arrivals));
    ArrivedKeepsCommands(d.book, t.arrivals);
    assert NoNewRunner(d, arrived);
    ArrivedAgrees(d, t.arrivals, lost, name);
    ReapedAgrees(arrived, t.gone, lost, name);
    var reaped := Reaped(arrived, t.gone, name);
    assert Valid(reaped.book);
    hide Arrived, Valid, Holding, Agrees, NoNewRunner, Reaped, ClaimNext;
    ClaimHolds(reaped, lost, name, t.lowDisk);
    ReapedKeepsRunners(arrived, t.gone, name);
    ClaimKeepsRunners(reaped, name, t.lowDisk);
    NoNewRunnerTrans(d, arrived, reaped);
    NoNewRunnerTrans(d, reaped, ClaimNext(reaped, name, t.lowDisk).0);
  }

  /** A stop takes a runner away, or nothing. */
  lemma StoppedKeepsRunners(d: Desk, c: Command, name: string, ans: Answers)
    ensures var after := StopRunner(d, c, name, ans).0; NoNewRunner(d, after) && after.book.order == d.book.order
  {
    hide IsTerminal, BreaksUniqueness, Latest;
  }

  /** Recording an event restates no command and starts no runner. */
  lemma RecordKeepsCommands(d: Desk, id: nat, e: Event)
    requires Recorded(d.book, id, e).Ok?
    ensures var book := Recorded(d.book, id, e).value;
      (AllDifferent(d.(book := book)) <==> AllDifferent(d)) && book.order == d.book.order
  {
    hide IsTerminal, BreaksUniqueness, Latest;
  }

  // ---- One turn ------------------------------------------------------------

  /** The command goes through as a start, and a runner at work just like it is not among those listed. */
  ghost predicate HiddenLike(d: Desk, id: nat, ans: Answers) {
    && id in d.book.command && IsRunnerKind(d.book.command[id].kind)
    && ans.gate.GatePasses? && ans.spawned && |d.children| < MAX_RUNNERS && !SameRunnerShown(d.book, d.book.command[id])
    && exists k :: k in d.children && k !in Newest(d.book) && k in d.book.command && d.book.command[k] == d.book.command[id]
  }

  /** What the turn claims is started beside its hidden like. */
  ghost predicate StartsAlike(d: Desk, t: Turn, name: string) {
    var (claimed, id) := ClaimNext(Reaped(d.(book := Arrived(d.book, t.arrivals)), t.gone, name), name, t.lowDisk);
    id.Some? && HiddenLike(claimed, id.value, t.answers)
  }

  lemma ChildrenKnown(d: Desk, id: nat, lost: set<nat>, name: string)
    requires Holding(d, id, lost, name)
    ensures TablesMatch(d) && forall k | k in d.children :: k in d.book.command
  {
    hide Valid, Mirrors, Latest;
  }

  lemma StartGoesThrough(d: Desk, id: nat, c: Command, ans: Answers)
    ensures StartRunner(d, id, c, ans).1.Done? <==> ans.spawned && |d.children| < MAX_RUNNERS && !SameRunnerShown(d.book, c)
    ensures !StartRunner(d, id, c, ans).1.Done? ==> StartRunner(d, id, c, ans).0 == d
  {
    hide SameRunnerShown;
  }

  lemma StartDiffers(d: Desk, id: nat, lost: set<nat>, name: string, ans: Answers)
    requires Holding(d, id, lost, name) && id in d.book.command && AllDifferent(d)
    requires IsRunnerKind(d.book.command[id].kind) && ans.gate.GatePasses?
    ensures AllDifferent(StartRunner(d, id, d.book.command[id], ans).0) <==> !HiddenLike(d, id, ans)
  {
    hide Holding, AllDifferent, Newest, StartRunner, SameRunnerShown;
    var c := d.book.command[id];
    StartGoesThrough(d, id, c, ans);
    ChildrenKnown(d, id, lost, name);
    if StartRunner(d, id, c, ans).1.Done? {
      StartKeepsDifferent(d, id, c, lost, name, ans);
    }
  }

  lemma StopDiffers(d: Desk, id: nat, c: Command, lost: set<nat>, name: string, ans: Answers)
    requires Holding(d, id, lost, name) && AllDifferent(d)
    ensures AllDifferent(StopRunner(d, c, name, ans).0)
  {
    hide Holding, AllDifferent, StopRunner, TablesMatch, NoNewRunner;
    ChildrenKnown(d, id, lost, name);
    StoppedKeepsRunners(d, c, name, ans);
    NoNewRunnerDiffers(d, StopRunner(d, c, name, ans).0);
  }

  /** A handler leaves all runners different exactly when it does not start one beside its hidden like. */
  lemma HandlerDiffers(d: Desk, id: nat, lost: set<nat>, name: string, ans: Answers)
    requires Holding(d, id, lost, name) && id in d.book.command && AllDifferent(d)
    ensures AllDifferent(Gated(d, id, d.book.command[id], name, ans).0) <==> !HiddenLike(d, id, ans)
  {
    hide Holding, AllDifferent, StartRunner, StopRunner, BoundedState, Newest, SameRunnerShown;
    var c := d.book.command[id];
    if IsRunnerKind(c.kind) && ans.gate.GatePasses? {
      StartDiffers(d, id, lost, name, ans);
    } else {
      StopDiffers(d, id, c, lost, name, ans);
    }
  }

  lemma ExecuteDiffers(d: Desk, id: nat, lost: set<nat>, name: string, ans: Answers)
    requires Holding(d, id, lost, name) && id in d.book.command && AllDifferent(d)
    ensures AllDifferent(Execute(d, id, name, ans).0) <==> !HiddenLike(d, id, ans)
  {
    hide Holding, Recorded, AllDifferent, Gated, HiddenLike;
    HandlerDiffers(d, id, lost, name, ans);
    var (after, state) := Gated(d, id, d.book.command[id], name, ans);
    if Recorded(after.book, id, Event(state, name)).Ok? {
      RecordKeepsCommands(after, id, Event(state, name));
    }
  }

  lemma AgreesTables(d: Desk, lost: set<nat>, name: string)
    requires Agrees(d, lost, name)
    ensures TablesMatch(d)
  {
    hide Valid, Mirrors, NoClaims;
  }

  lemma {:induction false} TurnDiffers(d: Desk, t: Turn, lost: set<nat>, name: string)
    requires Agrees(d, lost, name) && AllDifferent(d)
    ensures AllDifferent(TurnOf(d, t, name).0) <==> !StartsAlike(d, t, name)
  {
    hide Agrees, AllDifferent, Reaped, Arrived, ClaimNext, Execute, Holding, NoNewRunner, TablesMatch, HiddenLike;
    var reaped := Reaped(d.(book := Arrived(d.book, t.arrivals)), t.gone, name);
    var (claimed, id) := ClaimNext(reaped, name, t.lowDisk);
    BeforeExecuting(d, t, lost, name);
    AgreesTables(d, lost, name);
    NoNewRunnerDiffers(d, claimed);
    if id.Some? {
      HoldsKnown(claimed, id.value, lost, name);
      ExecuteDiffers(claimed, id.value, lost, name, t.answers);
    }
  }

  // ---- A whole run ---------------------------------------------------------

  /** No two runners are alike at any loop head. */
  ghost predicate DiffersThroughout(d: Desk, turns: seq<Turn>, name: string, once: bool)
    decreases |turns|
  {
    AllDifferent(d) && (turns != [] ==>
      var (after, claimed, error) := TurnOf(d, turns[0], name);
      DiffersThroughout(after, if error.None? && (claimed || !once) then turns[1..] else [], name, once))
  }

  /** No runner is started beside its hidden like. */
  ghost predicate NoHiddenStart(d: Desk, turns: seq<Turn>, name: string, once: bool)
    decreases |turns|
  {
    turns != [] ==>
      && !StartsAlike(d, turns[0], name)
      && var (after, claimed, error) := TurnOf(d, turns[0], name);
         NoHiddenStart(after, if error.None? && (claimed || !once) then turns[1..] else [], name, once)
  }

  lemma {:induction false} TurnsDifferExactly(d: Desk, turns: seq<Turn>, lost: set<nat>, name: string, once: bool)
    requires Agrees(d, lost, name) && AllDifferent(d)
    ensures DiffersThroughout(d, turns, name, once) <==> NoHiddenStart(d, turns, name, once)
    decreases |turns|
  {
    hide Agrees, TurnOf, AllDifferent, StartsAlike;
    if turns != [] {
      TurnAgrees(d, turns[0], lost, name);
      TurnDiffers(d, turns[0], lost, name);
      var (after, claimed, error) := TurnOf(d, turns[0], name);
      if !StartsAlike(d, turns[0], name) {
        TurnsDifferExactly(after, if claimed || !once then turns[1..] else [], lost, name, once);
      }
    }
  }

  /**
   * However a run goes: no two runners in the worker's table share kind, family, dataset,
   * symbol and watch list at any loop head, if and only if it never starts one whose like is
   * at work and no longer among the newest 500 commands.
   */
  lemma {:induction false} RunDiffersExactly(b: Book, turns: seq<Turn>, prefix: string, name: string, once: bool)
    requires Valid(b) && prefix <= name
    ensures var d := StartUp(b, prefix, name);
      DiffersThroughout(d, turns, name, once) <==> NoHiddenStart(d, turns, name, once)
  {
    RestartAgrees(b, prefix, name);
    var d := StartUp(b, prefix, name);
    assert d.children == map[];
    assert AllDifferent(d);
    hide StartUp, Turns, Agrees, AllDifferent, LostRunners, DiffersThroughout, NoHiddenStart;
    TurnsDifferExactly(d, turns, LostRunners(b, name), name, once);
  }

  // ---- While the ledger is small -------------------------------------------

  /** While all commands are listed, every runner is. */
  lemma AllShown(d: Desk, id: nat, lost: set<nat>, name: string)
    requires Holding(d, id, lost, name) && AllListed(d.book)
    ensures forall k | k in d.children :: k in Newest(d.book)
  {
    hide ValidCommand, Latest, TablesMatch;
    forall k | k in d.children ensures k in Newest(d.book) {
      assert RunsFor(d.book, k, name);
      InTheBook(d.book, k);
      assert k in d.book.order;
    }
  }

  lemma ExecuteKeepsOrder(d: Desk, id: nat, name: string, ans: Answers)
    ensures Execute(d, id, name, ans).0.book.order == d.book.order
  {
    hide StopRunner, SameRunnerShown, IsTerminal, BreaksUniqueness, Latest, BoundedState, NoNewRunner;
    if id in d.book.command {
      StoppedKeepsRunners(d, d.book.command[id], name, ans);
    }
  }

  /** The ledger only grows; and while it is small at the end of a turn, nothing was hidden in it. */
  lemma TurnGrows(d: Desk, t: Turn, lost: set<nat>, name: string)
    requires Agrees(d, lost, name)
    ensures |d.book.order| <= |TurnOf(d, t, name).0.book.order|
    ensures AllListed(TurnOf(d, t, name).0.book) ==> !StartsAlike(d, t, name)
  {
    hide Agrees, Reaped, Arrived, ClaimNext, Execute, Holding, NoNewRunner, Newest, SameRunnerShown;
    var reaped := Reaped(d.(book := Arrived(d.book, t.arrivals)), t.gone, name);
    var (claimed, id) := ClaimNext(reaped, name, t.lowDisk);
    BeforeExecuting(d, t, lost, name);
    if id.Some? {
      ExecuteKeepsOrder(claimed, id.value, name, t.answers);
      if AllListed(claimed.book) {
        AllShown(claimed, id.value, lost, name);
      }
    }
  }

  lemma {:induction false} TurnsGrow(d: Desk, turns: seq<Turn>, lost: set<nat>, name: string, once: bool)
    requires Agrees(d, lost, name)
    ensures |d.book.order| <= |Turns(d, turns, name, once).0.book.order|
    ensures AllListed(Turns(d, turns, name, once).0.book) ==> NoHiddenStart(d, turns, name, once)
    decreases |turns|
  {
    hide Agrees, TurnOf, StartsAlike;
    if turns != [] {
      TurnAgrees(d, turns[0], lost, name);
      TurnGrows(d, turns[0], lost, name);
      var (after, claimed, error) := TurnOf(d, turns[0], name);
      if claimed || !once {
        TurnsGrow(after, turns[1..], lost, name, once);
      }
    }
  }

  /** So they all differ at every loop head of a run that ends with at most 500 commands in the ledger. */
  lemma {:induction false} RunKeepsDifferent(b: Book, turns: seq<Turn>, prefix: string, name: string, once: bool)
    requires Valid(b) && prefix <= name
    requires AllListed(Turns(StartUp(b, prefix, name), turns, name, once).0.book)
    ensures DiffersThroughout(StartUp(b, prefix, name), turns, name, once)
  {
    hide StartUp, Turns, Agrees, AllDifferent, LostRunners, DiffersThroughout, NoHiddenStart;
    RestartAgrees(b, prefix, name);
    RunDiffersExactly(b, turns, prefix, name, once);
    TurnsGrow(StartUp(b, prefix, name), turns, LostRunners(b, name), name, once);
  }
}
