/**
 * Whole runs of the worker: restart after a crash anywhere, the end of a run, and the
 * limits of what the newest 500 commands can show.
 */
module WorkerRuns {
  import opened Wrappers
  import opened TerminalCommands
  import opened Worker

  // ---- Restart -------------------------------------------------------------

  /** A runner recorded under this host's prefix that the newest 500 commands no longer show. */
  ghost predicate HiddenRunner(b: Book, id: nat, prefix: string) {
    Latest(b, id).state.Running? && prefix <= Latest(b, id).worker && id !in RunningShown(b)
  }

  lemma SettleLatest(b: Book, prefix: string, name: string)
    requires Valid(b)
    ensures var claims := ClaimedUnder(b, prefix); var settled := AppendEach(b, claims, Event(Failed, name));
      && Valid(settled)
      && RunningShown(settled) == RunningShown(b)
      && forall id :: Latest(settled, id) ==
           if Latest(b, id).state.Claimed? && prefix <= Latest(b, id).worker then Event(Failed, name) else Latest(b, id)
  {
    var claims := ClaimedUnder(b, prefix);
    forall id ensures id in claims <==> Latest(b, id).state.Claimed? && prefix <= Latest(b, id).worker {
      if Latest(b, id).state.Claimed? {
        InTheBook(b, id);
      }
    }
    hide AppendEach, Valid, Latest, RunningShown, ClaimedUnder;
    AppendEachValid(b, claims, Event(Failed, name));
    AppendEachLatest(b, claims, Event(Failed, name));
    ShownAfterSettling(b, claims, name);
  }

  lemma OrphansLatest(b: Book, prefix: string, name: string)
    requires Valid(b)
    ensures var after := AppendEach(b, Orphans(b, prefix), Event(Exited, name));
      && Valid(after)
      && forall id :: Latest(after, id) == if id in Orphans(b, prefix) then Event(Exited, name) else Latest(b, id)
  {
    forall id | id in Orphans(b, prefix) ensures id in b.log && May(b.command[id].kind, Latest(b, id).state, Exited) {
      InTheBook(b, id);
    }
    hide AppendEach, Valid, Latest, RunningShown, Orphans;
    AppendEachValid(b, Orphans(b, prefix), Event(Exited, name));
    AppendEachLatest(b, Orphans(b, prefix), Event(Exited, name));
  }

  lemma StartUpLatest(b: Book, prefix: string, name: string)
    requires Valid(b)
    ensures var after := StartUp(b, prefix, name).book;
      && Valid(after)
      && forall id :: Latest(after, id) ==
           if Latest(b, id).state.Claimed? && prefix <= Latest(b, id).worker then Event(Failed, name)
           else if id in RunningShown(b) && prefix <= Latest(b, id).worker then Event(Exited, name)
           else Latest(b, id)
  {
    var settled := AppendEach(b, ClaimedUnder(b, prefix), Event(Failed, name));
    SettleLatest(b, prefix, name);
    OrphansLatest(settled, prefix, name);
    assert StartUp(b, prefix, name).book == AppendEach(settled, Orphans(settled, prefix), Event(Exited, name));
    forall id ensures id in RunningShown(b) ==> !Latest(b, id).state.Claimed? {
    }
    hide AppendEach, Valid, Latest, RunningShown, ClaimedUnder, StartUp;
  }

  /** Failing claims does not change which runners are shown. */
  lemma ShownAfterSettling(b: Book, claims: set<nat>, name: string)
    requires Valid(b) && forall id | id in claims :: id in b.log && Latest(b, id).state.Claimed?
    ensures RunningShown(AppendEach(b, claims, Event(Failed, name))) == RunningShown(b)
  {
    hide AppendEach, Latest, Valid;
    var settled := AppendEach(b, claims, Event(Failed, name));
    AppendEachLatest(b, claims, Event(Failed, name));
    AppendEachAt(b, claims, Event(Failed, name));
    assert Newest(settled) == Newest(b);
    hide Newest;
    forall id ensures id in RunningShown(settled) <==> id in RunningShown(b) {
    }
  }

  /**
   * Restart after a crash anywhere: no claim made on this host is left, and the runners
   * recorded as running there are exactly those the newest 500 commands do not show.
   */
  lemma {:induction false} RestartClears(b: Book, prefix: string, name: string)
    requires Valid(b)
    ensures var after := StartUp(b, prefix, name).book;
      && (forall id :: !(Latest(after, id).state.Claimed? && prefix <= Latest(after, id).worker))
      && (forall id :: Latest(after, id).state.Running? && prefix <= Latest(after, id).worker <==> HiddenRunner(b, id, prefix))
  {
    StartUpLatest(b, prefix, name);
    hide StartUp, Latest, RunningShown;
  }

  /** The runners recorded under this worker's own name that the newest 500 commands do not show. */
  function LostRunners(b: Book, name: string): set<nat> {
    set id | id in b.log && RunsFor(b, id, name) && id !in RunningShown(b)
  }

  /**
   * After a restart the tables and the ledger agree but for the lost runners; so they
   * agree outright exactly when none is lost.
   */
  lemma {:induction false} RestartAgrees(b: Book, prefix: string, name: string)
    requires Valid(b) && prefix <= name
    ensures Agrees(StartUp(b, prefix, name), LostRunners(b, name), name)
    ensures Agrees(StartUp(b, prefix, name), {}, name) <==> LostRunners(b, name) == {}
  {
    RestartClears(b, prefix, name);
    StartUpLatest(b, prefix, name);
    var d := StartUp(b, prefix, name);
    assert d.children == map[] && d.childKinds == map[];
    assert NoClaims(d.book, name);
    hide StartUp, Valid, HiddenRunner, Latest, RunsFor, LostRunners;
    forall id ensures RunsFor(d.book, id, name) <==> id in LostRunners(b, name) {
      RestartedRuns(b, prefix, name, id);
    }
    EmptyTablesAgree(d, LostRunners(b, name), name);
  }

  lemma EmptyTablesAgree(d: Desk, lost: set<nat>, name: string)
    requires Valid(d.book) && NoClaims(d.book, name) && d.children == map[] && d.childKinds == map[]
    requires forall id :: RunsFor(d.book, id, name) <==> id in lost
    ensures Agrees(d, lost, name)
    ensures Agrees(d, {}, name) <==> lost == {}
  {
    hide Valid, NoClaims, RunsFor;
    assert d.children.Keys + lost == lost && d.children.Keys + {} == {};
    if Agrees(d, {}, name) {
      assert forall id :: id in lost <==> RunsFor(d.book, id, name);
    }
  }

  lemma RestartedRuns(b: Book, prefix: string, name: string, id: nat)
    requires Valid(b) && prefix <= name
    ensures RunsFor(StartUp(b, prefix, name).book, id, name) <==> id in LostRunners(b, name)
  {
    hide StartUp, Valid, Latest, RunningShown;
    StartUpLatest(b, prefix, name);
    if RunsFor(b, id, name) {
      InTheBook(b, id);
    }
  }

  // ---- The end of a run ----------------------------------------------------

  /** At the end the ledger takes the STOPPED event of every runner in the table. */
  lemma AllEndRecorded(d: Desk, lost: set<nat>, name: string)
    requires Agrees(d, lost, name)
    ensures ShutDown(d, name) == AppendEach(d.book, d.children.Keys, Event(Stopped, name))
    ensures forall id | id in d.children :: id in d.book.log
  {
    hide Valid, Recorded, Mirrors, NoClaims, AppendEach, Append, TablesMatch;
    forall id | id in d.children ensures Recorded(d.book, id, Event(Stopped, name)).Ok? && id in d.book.log {
      EndRecorded(d.book, id, Event(Stopped, name), d.children.Keys + lost, name);
    }
    assert d.children.Keys == set id | id in d.children && Recorded(d.book, id, Event(Stopped, name)).Ok?;
  }

  lemma ShutDownClears(d: Desk, lost: set<nat>, name: string)
    requires Agrees(d, lost, name)
    ensures var after := ShutDown(d, name);
      && Valid(after)
      && (forall id :: Latest(after, id) == if id in d.children then Event(Stopped, name) else Latest(d.book, id))
      && Mirrors(lost, after, name) && NoClaims(after, name)
  {
    AllEndRecorded(d, lost, name);
    hide ShutDown, Valid, Latest, AppendEach, Mirrors, NoClaims, TablesMatch;
    AppendEachLatest(d.book, d.children.Keys, Event(Stopped, name));
    EndedMirrors(d.book, d.children.Keys + lost, d.children.Keys, Event(Stopped, name), name);
    assert (d.children.Keys + lost) - d.children.Keys == lost;
  }

  /** How a command this worker claimed must have gone by the end: one outcome, and one end if it ran. */
  ghost predicate Settled(h: seq<Event>, name: string) {
    |h| >= 2 && h[1] == Event(Claimed, name) ==>
      && |h| >= 3
      && (h[2] == Event(Running, name) ==> |h| == 4 && IsEnd(h[3].state))
  }

  /**
   * Whatever happens in its turns, a worker never has an outcome refused by the ledger.
   * When it ends it holds no claim, and nothing it recorded is RUNNING but what was lost
   * before it started: every other command it claimed has exactly one outcome, and every
   * runner it started exactly one end. A child's result file is taken to be readable; one that
   * is not makes `execute` raise, and the run ends as by an interrupt, with the claim standing.
   */
  lemma {:induction false} RunSettles(b: Book, turns: seq<Turn>, prefix: string, name: string, once: bool)
    requires Valid(b) && prefix <= name
    ensures var (after, error) := Run(b, turns, prefix, name, once);
      && error.None? && Valid(after)
      && (forall id :: !ClaimedFor(after, id, name))
      && (forall id :: RunsFor(after, id, name) <==> id in LostRunners(b, name))
      && (forall id | id in after.log && id !in LostRunners(b, name) :: Settled(after.log[id], name))
  {
    hide StartUp, Turns, ShutDown, Agrees, HiddenRunner, LostRunners;
    var lost := LostRunners(b, name);
    RestartAgrees(b, prefix, name);
    TurnsAgree(StartUp(b, prefix, name), turns, lost, name, once);
    var d := Turns(StartUp(b, prefix, name), turns, name, once).0;
    ShutDownClears(d, lost, name);
    var after := ShutDown(d, name);
    hide Run, Latest, RunsFor, ClaimedFor;
    forall id | id in after.log && id !in lost ensures Settled(after.log[id], name) {
      assert !RunsFor(after, id, name) && !ClaimedFor(after, id, name);
      SettledBecause(after, id, name);
    }
  }

  lemma SettledBecause(b: Book, id: nat, name: string)
    requires Valid(b) && id in b.log && !RunsFor(b, id, name) && !ClaimedFor(b, id, name)
    ensures Settled(b.log[id], name)
  {
    hide Ordered, WellTyped;
    LatestOfValid(b, id);
    assert ValidCommand(b.command[id], b.log[id]);
  }

  // ---- No two runners alike ------------------------------------------------

  /** No two runners of this worker share kind, family, dataset, symbol and watch list. */
  ghost predicate AllDifferent(d: Desk) {
    forall i, j | i in d.children && j in d.children && i != j && i in d.book.command && j in d.book.command ::
      d.book.command[i] != d.book.command[j]
  }

  /** A start that goes through leaves all runners different exactly when no hidden one is its like. */
  lemma {:induction false} StartKeepsDifferent(d: Desk, id: nat, c: Command, lost: set<nat>, name: string, ans: Answers)
    requires Holding(d, id, lost, name) && id in d.book.command && d.book.command[id] == c && IsRunnerKind(c.kind)
    requires AllDifferent(d) && StartRunner(d, id, c, ans).1.Done?
    ensures AllDifferent(StartRunner(d, id, c, ans).0) <==>
            forall k | k in d.children :: k in Newest(d.book) || d.book.command[k] != c
  {
    hide Valid, Newest, Latest;
    var after := StartRunner(d, id, c, ans).0;
    assert !RunsFor(d.book, id, name) && id !in d.children;
    forall k | k in d.children && k in Newest(d.book) ensures d.book.command[k] != c {
      assert RunsFor(d.book, k, name) && LatestIs(d.book, k, Running);
      assert d.book.command[k] == c ==> k in RunningShown(d.book);
    }
    if AllDifferent(after) {
      forall k | k in d.children ensures d.book.command[k] != c {
        assert k in after.children && id in after.children;
      }
    }
  }

  // ---- A runner that is no longer shown ------------------------------------

  const WATCH := Command(ResearchWatchStart, RunnerInputs("trend", "d1", "BTCUSDT", Some("core")))

  function CrowdedCommand(i: nat): Command {
    if i == 0 || i == 501 then WATCH else Command(HoldoutOpen, OtherInputs)
  }

  function CrowdedEvents(i: nat, name: string): seq<Event> {
    if i == 0 then [Event(Requested, ""), Event(Claimed, name), Event(Running, name)]
    else if i == 501 then [Event(Requested, ""), Event(Claimed, name)]
    else [Event(Blocked, "")]
  }

  function FirstNumbers(n: nat): (ids: seq<nat>)
    ensures |ids| == n && forall i | 0 <= i < n :: ids[i] == i
  {
    seq(n, i => i)
  }

  /** One runner at work, 500 later requests that were all blocked, and its like just claimed. */
  function CrowdedBook(name: string): Book {
    var ids := FirstNumbers(502);
    Book(ids, map i | i in ids :: CrowdedCommand(i), map i | i in ids :: CrowdedEvents(i, name))
  }

  function CrowdedDesk(name: string): Desk {
    Desk(CrowdedBook(name), map[0 := 4711], map[0 := ResearchWatchStart])
  }

  lemma CrowdedShape(name: string)
    ensures var b := CrowdedBook(name);
      && (forall i :: i in b.log <==> 0 <= i < 502)
      && b.command.Keys == b.log.Keys
      && (forall i | i in b.log :: b.command[i] == CrowdedCommand(i) && b.log[i] == CrowdedEvents(i, name))
  {
    forall i ensures i in FirstNumbers(502) <==> 0 <= i < 502 {
      if 0 <= i < 502 {
        assert FirstNumbers(502)[i] == i;
      }
    }
  }

  lemma CrowdedLatest(name: string, id: nat)
    ensures Latest(CrowdedBook(name), id) ==
              if id == 0 then Event(Running, name) else if id == 501 then Event(Claimed, name) else Event(Blocked, "")
  {
    CrowdedShape(name);
    hide CrowdedBook;
  }

  lemma CrowdedValid(name: string)
    ensures Valid(CrowdedBook(name))
  {
    var b := CrowdedBook(name);
    CrowdedShape(name);
    forall id ensures id in b.log <==> id in b.order {
      if id in b.log {
        assert b.order[id] == id;
      }
    }
    assert Ordered(b);
    hide CrowdedBook, Ordered, FirstNumbers;
    forall id | id in b.log ensures ValidCommand(b.command[id], b.log[id]) {
    }
  }

  lemma CrowdedHolds(name: string)
    ensures Holding(CrowdedDesk(name), 501, {}, name) && AllDifferent(CrowdedDesk(name))
  {
    CrowdedValid(name);
    CrowdedShape(name);
    forall id ensures RunsFor(CrowdedBook(name), id, name) <==> id == 0
              ensures ClaimedFor(CrowdedBook(name), id, name) <==> id == 501 {
      CrowdedLatest(name, id);
    }
    hide CrowdedBook, Valid, Latest, RunsFor, ClaimedFor;
    assert |CrowdedDesk(name).children| == 1;
  }

  lemma CrowdedShows(name: string)
    ensures 0 !in Newest(CrowdedBook(name)) && RunningShown(CrowdedBook(name)) == {}
  {
    var b := CrowdedBook(name);
    assert |b.order| == 502;
    assert forall i | 0 <= i < 500 :: Newest(b)[i] == i + 2;
    forall id ensures id !in RunningShown(b) {
      CrowdedLatest(name, id);
    }
    hide CrowdedBook;
  }

  /** With 500 newer commands between them, a second runner just like the first is started. */
  lemma {:induction false} SecondRunnerStarts(name: string)
    ensures var d := CrowdedDesk(name);
      var (after, reply) := StartRunner(d, 501, WATCH, Answers(GatePasses, NoResult, true, 4712, true));
      && Holding(d, 501, {}, name) && AllDifferent(d)
      && reply.Done? && !AllDifferent(after)
  {
    var d := CrowdedDesk(name);
    var ans := Answers(GatePasses, NoResult, true, 4712, true);
    CrowdedHolds(name);
    CrowdedShows(name);
    CrowdedShape(name);
    assert |d.children| == 1;
    assert d.book.command[501] == WATCH && d.book.command[0] == WATCH;
    hide CrowdedBook, RunningShown, Newest, Holding;
    assert StartRunner(d, 501, WATCH, ans).1.Done?;
    StartKeepsDifferent(d, 501, WATCH, {}, name, ans);
  }

  /**
   * On the same ledger the next worker of the host does not close the first runner: it is left
   * RUNNING; and under the old name again, tables and ledger do not agree.
   */
  lemma {:induction false} RunnerNotClosed(prefix: string, name: string, next: string)
    requires prefix <= name && prefix <= next
    ensures var b := CrowdedBook(name);
      && HiddenRunner(b, 0, prefix)
      && Latest(StartUp(b, prefix, next).book, 0) == Event(Running, name)
      && 0 in LostRunners(b, name) && !Agrees(StartUp(b, prefix, name), {}, name)
  {
    hide CrowdedBook, StartUp, Agrees, RunningShown, Valid;
    var b := CrowdedBook(name);
    CrowdedValid(name);
    CrowdedShows(name);
    CrowdedLatest(name, 0);
    InTheBook(b, 0);
    StartUpLatest(b, prefix, next);
    RestartAgrees(b, prefix, name);
  }
}
