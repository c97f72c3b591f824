/**
 * Every worker there ever was on one ledger, step by step. A worker writes one event at a
 * time and may be interrupted or killed between any two of its writes, at any place; the
 * API goes on with requests and settlements; later workers start on this host or another.
 */
module WorkerHistory {
  import opened Wrappers
  import opened TerminalCommands
  import opened Worker
  import opened WorkerRuns

  // ---- Steps ---------------------------------------------------------------

  /** Where a worker process stands between two of its writes. */
  datatype Phase =
    | Listing
    | Closing(orphans: set<nat>)
    | AtHead
    | Executing(id: nat)
    | Ending(id: nat, outcome: State)
    | Leaving(left: set<nat>)

  /**
   * A worker process. `newName` says that no earlier worker bore its name; `lost` holds the
   * runners recorded under its name that its own start-up was not shown.
   */
  datatype Process = Process(
    prefix: string, name: string, newName: bool, lost: set<nat>,
    children: map<nat, nat>, childKinds: map<nat, Kind>, phase: Phase)

  /** The ledger, the worker holding the lock, the names borne so far, and whether a worker's event was ever refused. */
  datatype World = World(book: Book, up: Option<Process>, names: set<string>, refused: bool)

  datatype Step =
    | Act(act: ApiAct)
    | Start(prefix: string, name: string)
    | List
    | Close(id: nat)
    | Enter
    | Reap(id: nat)
    | Claim(lowDisk: bool)
    | Handle(answers: Answers)
    | Finish
    | Quit(popped: set<nat>)
    | Leave(id: nat)
    | Die

  function DeskOf(b: Book, p: Process): Desk {
    Desk(b, p.children, p.childKinds)
  }

  /** The `finally` of `run` is entered with these runners in the table. */
  function Quitting(p: Process, popped: set<nat>): Process {
    p.(children := p.children - popped, childKinds := p.childKinds - popped, phase := Leaving(p.children.Keys - popped))
  }

  /** A runner left the tables, and the ledger did not take its end. */
  predicate Unrecorded(d: Desk, after: Desk) {
    after.children.Keys < d.children.Keys && after.book == d.book
  }

  /**
   * One write of a worker, or one move between two. `Quit` is an interrupt anywhere in the
   * loop, or the end of a `--once` worker; what the code had just taken out of its table
   * without recording it yet is in `popped`.
   */
  function Moved(w: World, p: Process, s: Step): World {
    match s
    case List =>
      if !p.phase.Listing? then w
      else w.(up := Some(p.(phase := Closing(Orphans(w.book, p.prefix)), lost := LostRunners(w.book, p.name))))
    case Close(id) =>
      if !p.phase.Closing? || id !in p.phase.orphans then w
      else
        (match Recorded(w.book, id, Event(Exited, p.name))
         case Err(_) => w.(up := None, refused := true)
         case Ok(book) => w.(book := book, up := Some(p.(phase := Closing(p.phase.orphans - {id})))))
    case Enter =>
      if p.phase != Closing({}) then w else w.(up := Some(p.(phase := AtHead)))
    case Reap(id) =>
      if !p.phase.AtHead? || id !in p.children then w
      else
        var popped := p.(children := p.children - {id}, childKinds := p.childKinds - {id});
        (match Recorded(w.book, id, Event(Exited, p.name))
         case Err(_) => w.(up := Some(Quitting(popped, {})), refused := true)
         case Ok(book) => w.(book := book, up := Some(popped)))
    case Claim(lowDisk) =>
      if !p.phase.AtHead? then w
      else
        var (after, id) := ClaimNext(DeskOf(w.book, p), p.name, lowDisk);
        if id.None? then w else w.(book := after.book, up := Some(p.(phase := Executing(id.value))))
    case Handle(answers) =>
      if !p.phase.Executing? then w
      else if p.phase.id !in w.book.command then w.(up := Some(Quitting(p, {})), refused := true)
      else
        var d := DeskOf(w.book, p);
        var (after, outcome) := Gated(d, p.phase.id, w.book.command[p.phase.id], p.name, answers);
        var q := p.(children := after.children, childKinds := after.childKinds, phase := Ending(p.phase.id, outcome));
        w.(book := after.book, up := Some(q), refused := w.refused || Unrecorded(d, after))
    case Finish =>
      if !p.phase.Ending? then w
      else
        (match Recorded(w.book, p.phase.id, Event(p.phase.outcome, p.name))
         case Err(_) => w.(up := Some(Quitting(p, {})), refused := true)
         case Ok(book) => w.(book := book, up := Some(p.(phase := AtHead))))
    case Quit(popped) =>
      if p.phase.AtHead? || p.phase.Executing? || p.phase.Ending? then w.(up := Some(Quitting(p, popped))) else w
    case Leave(id) =>
      if !p.phase.Leaving? || id !in p.phase.left then w
      else
        var rest := p.(phase := Leaving(p.phase.left - {id}));
        (match Recorded(w.book, id, Event(Stopped, p.name))
         case Err(_) => w.(up := Some(rest), refused := true)
         case Ok(book) => w.(book := book, up := Some(rest)))
    case Die => w.(up := None)
    case _ => w
  }

  /** A worker starts where no other holds the lock; its first write fails the claims left on its host. */
  function Started(w: World, prefix: string, name: string): World {
    World(AppendEach(w.book, ClaimedUnder(w.book, prefix), Event(Failed, name)),
          Some(Process(prefix, name, name !in w.names, {}, map[], map[], Listing)), w.names + {name}, w.refused)
  }

  function Next(w: World, s: Step): World {
    match s
    case Act(a) => w.(book := Acted(w.book, a))
    case Start(prefix, name) => if w.up.None? && prefix <= name then Started(w, prefix, name) else w
    case _ => if w.up.None? then w else Moved(w, w.up.value, s)
  }

  function After(w: World, steps: seq<Step>): World {
    if steps == [] then w else Next(After(w, steps[..|steps| - 1]), steps[|steps| - 1])
  }

  const EMPTY_LEDGER := World(Book([], map[], map[]), None, {}, false)

  // ---- The invariant -------------------------------------------------------

  predicate HostClaim(b: Book, prefix: string, id: nat) {
    Latest(b, id).state.Claimed? && prefix <= Latest(b, id).worker
  }

  /** The claims standing under this host's prefix. */
  ghost predicate HostClaimsAre(b: Book, prefix: string, ids: set<nat>) {
    forall id :: HostClaim(b, prefix, id) <==> id in ids
  }

  /** Whoever has a command in hand is a worker that started. */
  ghost predicate NamesKnown(b: Book, names: set<string>) {
    forall id :: InHands(Latest(b, id)) ==> Latest(b, id).worker in names
  }

  predicate Orphan(b: Book, prefix: string, id: nat) {
    id in b.log && Latest(b, id).state.Running? && prefix <= Latest(b, id).worker
  }

  /** What runs under this worker's name is still to be closed, or lost. */
  ghost predicate ClosingStands(b: Book, prefix: string, name: string, lost: set<nat>, orphans: set<nat>) {
    && (forall id | id in orphans :: Orphan(b, prefix, id) && id !in lost)
    && (forall id | id in lost :: RunsFor(b, id, name))
    && (forall id :: RunsFor(b, id, name) ==> id in lost || id in orphans)
  }

  function Without(d: Desk, id: nat): Desk {
    d.(children := d.children - {id}, childKinds := d.childKinds - {id})
  }

  /** A claimed runner's process is spawned and in the tables; its RUNNING is still to be written. */
  ghost predicate Spawned(d: Desk, id: nat, lost: set<nat>, name: string) {
    && Holding(Without(d, id), id, lost, name)
    && id in d.children && id in d.childKinds && |d.children| <= MAX_RUNNERS
    && id in d.book.command && IsRunnerKind(d.book.command[id].kind) && d.childKinds[id] == d.book.command[id].kind
  }

  predicate MayStop(b: Book, id: nat) {
    id in b.log && id in b.command && May(b.command[id].kind, Latest(b, id).state, Stopped)
  }

  ghost predicate EndingStands(d: Desk, id: nat, outcome: State, lost: set<nat>, name: string) {
    if outcome.Running? then Spawned(d, id, lost, name) else IsOutcome(outcome) && Holding(d, id, lost, name)
  }

  /** What holds of the ledger and the tables at each place a worker can stand. */
  ghost predicate Stands(b: Book, p: Process) {
    var d := DeskOf(b, p);
    match p.phase
    case Listing =>
      && p.children == map[] && p.childKinds == map[] && HostClaimsAre(b, p.prefix, {})
      && (p.newName ==> forall id :: !RunsFor(b, id, p.name))
    case Closing(orphans) =>
      && p.children == map[] && p.childKinds == map[] && HostClaimsAre(b, p.prefix, {})
      && ClosingStands(b, p.prefix, p.name, p.lost, orphans)
    case AtHead => Agrees(d, p.lost, p.name) && HostClaimsAre(b, p.prefix, {})
    case Executing(id) =>
      && Holding(d, id, p.lost, p.name) && HostClaimsAre(b, p.prefix, {id})
      && id in b.command && IsWorkerKind(b.command[id].kind)
    case Ending(id, outcome) => EndingStands(d, id, outcome, p.lost, p.name) && HostClaimsAre(b, p.prefix, {id})
    case Leaving(left) => forall id | id in left :: MayStop(b, id)
  }

  ghost predicate ProcessStands(w: World, p: Process) {
    && p.prefix <= p.name && p.name in w.names
    && (p.newName ==> p.lost == {})
    && Stands(w.book, p)
  }

  ghost predicate Sound(w: World) {
    && Valid(w.book)
    && NamesKnown(w.book, w.names)
    && !w.refused
    && (w.up.Some? ==> ProcessStands(w, w.up.value))
  }

  // ---- One more event ------------------------------------------------------

  lemma AppendHost(b: Book, id: nat, e: Event, prefix: string, ids: set<nat>, names: set<string>)
    requires id in b.log && HostClaimsAre(b, prefix, ids) && NamesKnown(b, names) && e.worker in names
    ensures var after := Append(b, id, e);
      && HostClaimsAre(after, prefix, if e.state.Claimed? && prefix <= e.worker then ids + {id} else ids - {id})
      && NamesKnown(after, names)
  {
    AppendLatest(b, id, e);
    hide Append, Latest;
    var after := Append(b, id, e);
    forall k
      ensures HostClaim(after, prefix, k) <==>
              if k == id then e.state.Claimed? && prefix <= e.worker else HostClaim(b, prefix, k) {
    }
    forall k ensures HostClaim(b, prefix, k) <==> k in ids {
    }
  }

  lemma AppendNames(b: Book, id: nat, e: Event, names: set<string>)
    requires id in b.log && NamesKnown(b, names) && e.worker in names
    ensures NamesKnown(Append(b, id, e), names)
  {
    AppendLatest(b, id, e);
    hide Append, Latest;
  }

  // ---- The API -------------------------------------------------------------

  lemma ActHost(b: Book, a: ApiAct, prefix: string, ids: set<nat>, names: set<string>)
    ensures HostClaimsAre(b, prefix, ids) ==> HostClaimsAre(Acted(b, a), prefix, ids)
    ensures NamesKnown(b, names) ==> NamesKnown(Acted(b, a), names)
  {
    ActedLatest(b, a);
    hide Acted, Latest;
    forall id
      ensures HostClaim(Acted(b, a), prefix, id) <==> HostClaim(b, prefix, id)
      ensures InHands(Latest(Acted(b, a), id)) ==> InHands(Latest(b, id)) && Latest(Acted(b, a), id) == Latest(b, id) {
    }
  }

  lemma ActRuns(b: Book, a: ApiAct, id: nat)
    ensures forall name :: RunsFor(Acted(b, a), id, name) <==> RunsFor(b, id, name)
    ensures forall name :: ClaimedFor(Acted(b, a), id, name) <==> ClaimedFor(b, id, name)
    ensures forall prefix :: Orphan(b, prefix, id) ==> Orphan(Acted(b, a), prefix, id)
    ensures MayStop(b, id) ==> MayStop(Acted(b, a), id)
  {
    ActedLatest(b, a);
    hide Acted, Latest, IsWorkerKind, IsRunnerKind;
  }

  lemma ActMirrors(b: Book, a: ApiAct, ids: set<nat>, name: string)
    requires Mirrors(ids, b, name)
    ensures Mirrors(ids, Acted(b, a), name)
    ensures forall k :: ClaimedFor(Acted(b, a), k, name) <==> ClaimedFor(b, k, name)
  {
    hide Acted, RunsFor, ClaimedFor;
    forall k ensures RunsFor(Acted(b, a), k, name) <==> RunsFor(b, k, name)
             ensures ClaimedFor(Acted(b, a), k, name) <==> ClaimedFor(b, k, name) {
      ActRuns(b, a, k);
    }
  }

  lemma ActTables(d: Desk, a: ApiAct)
    requires Valid(d.book) && TablesMatch(d)
    ensures TablesMatch(d.(book := Acted(d.book, a)))
  {
    hide Acted, Ordered, ValidCommand, Latest;
    ActedLatest(d.book, a);
  }

  lemma ActHolds(d: Desk, a: ApiAct, id: nat, lost: set<nat>, name: string)
    requires Holding(d, id, lost, name)
    ensures Holding(d.(book := Acted(d.book, a)), id, lost, name)
  {
    hide Valid, Acted, Mirrors, ClaimedFor, TablesMatch;
    ActedValid(d.book, a);
    ActTables(d, a);
    ActMirrors(d.book, a, d.children.Keys + lost, name);
  }

  lemma ActSpawned(d: Desk, a: ApiAct, id: nat, lost: set<nat>, name: string)
    requires Spawned(d, id, lost, name)
    ensures Spawned(d.(book := Acted(d.book, a)), id, lost, name)
  {
    HoldsLogged(Without(d, id), id, lost, name);
    ActHolds(Without(d, id), a, id, lost, name);
    ActedLatest(d.book, a);
    hide Holding, Acted, Latest, IsRunnerKind;
    assert Without(d.(book := Acted(d.book, a)), id) == Without(d, id).(book := Acted(d.book, a));
  }

  lemma HoldsLogged(d: Desk, id: nat, lost: set<nat>, name: string)
    requires Holding(d, id, lost, name)
    ensures id in d.book.log && id in d.book.command
  {
    InTheBook(d.book, id);
  }

  lemma ActStands(b: Book, a: ApiAct, p: Process)
    requires Valid(b) && Stands(b, p)
    ensures Stands(Acted(b, a), p)
  {
    var d := DeskOf(b, p);
    hide Valid, Agrees, Holding, Spawned, Acted, HostClaimsAre, RunsFor, Orphan, MayStop, IsWorkerKind;
    assert DeskOf(Acted(b, a), p) == d.(book := Acted(b, a));
    match p.phase
    case Listing =>
      ActHost(b, a, p.prefix, {}, {});
      forall id ensures RunsFor(Acted(b, a), id, p.name) <==> RunsFor(b, id, p.name) { ActRuns(b, a, id); }
    case Closing(orphans) =>
      ActHost(b, a, p.prefix, {}, {});
      forall id
        ensures RunsFor(Acted(b, a), id, p.name) <==> RunsFor(b, id, p.name)
        ensures Orphan(b, p.prefix, id) ==> Orphan(Acted(b, a), p.prefix, id) { ActRuns(b, a, id); }
    case AtHead =>
      ActHost(b, a, p.prefix, {}, {});
      ActedAgrees(d, a, p.lost, p.name);
    case Executing(id) =>
      ActHost(b, a, p.prefix, {id}, {});
      HoldsLogged(d, id, p.lost, p.name);
      ActHolds(d, a, id, p.lost, p.name);
      ActedLatest(b, a);
    case Ending(id, outcome) =>
      ActHost(b, a, p.prefix, {id}, {});
      if outcome.Running? {
        ActSpawned(d, a, id, p.lost, p.name);
      } else {
        ActHolds(d, a, id, p.lost, p.name);
      }
    case Leaving(left) =>
      forall id | id in left ensures MayStop(Acted(b, a), id) { ActRuns(b, a, id); }
  }

  lemma ActKeeps(w: World, a: ApiAct)
    requires Sound(w)
    ensures Sound(Next(w, Act(a)))
  {
    hide Valid, Stands, Acted, NamesKnown;
    ActedValid(w.book, a);
    ActHost(w.book, a, "", {}, w.names);
    if w.up.Some? {
      ActStands(w.book, a, w.up.value);
    }
  }

  // ---- Starting ------------------------------------------------------------

  lemma StartKeeps(w: World, prefix: string, name: string)
    requires Sound(w)
    ensures Sound(Next(w, Start(prefix, name)))
  {
    if w.up.None? && prefix <= name {
      SettleLatest(w.book, prefix, name);
      var after := Started(w, prefix, name);
      hide AppendEach, ClaimedUnder, RunningShown, Valid, Latest;
      forall id ensures RunsFor(after.book, id, name) <==> RunsFor(w.book, id, name) {
      }
      assert NamesKnown(after.book, after.names);
      assert HostClaimsAre(after.book, prefix, {});
    }
  }

  lemma ListKeeps(w: World)
    requires Sound(w)
    ensures Sound(Next(w, List))
  {
    if w.up.Some? && w.up.value.phase.Listing? {
      var p, b := w.up.value, w.book;
      var orphans, lost := Orphans(b, p.prefix), LostRunners(b, p.name);
      forall id
        ensures id in orphans ==> Orphan(b, p.prefix, id) && id !in lost
        ensures id in lost ==> RunsFor(b, id, p.name)
        ensures RunsFor(b, id, p.name) ==> id in lost || id in orphans {
        if Latest(b, id).state.Running? {
          InTheBook(b, id);
        }
      }
      hide Valid, Latest, HostClaimsAre, NamesKnown, RunsFor, Orphan, Orphans, LostRunners, RunningShown;
      assert p.newName ==> lost == {};
    }
  }

  lemma OrphanEnds(b: Book, p: Process, orphans: set<nat>, id: nat, names: set<string>)
    requires Valid(b) && NamesKnown(b, names) && p.name in names && HostClaimsAre(b, p.prefix, {})
    requires ClosingStands(b, p.prefix, p.name, p.lost, orphans) && id in orphans
    ensures id in b.log
    ensures var after := Append(b, id, Event(Exited, p.name));
      && Recorded(b, id, Event(Exited, p.name)) == Ok(after)
      && Valid(after) && NamesKnown(after, names) && HostClaimsAre(after, p.prefix, {})
      && ClosingStands(after, p.prefix, p.name, p.lost, orphans - {id})
  {
    var e := Event(Exited, p.name);
    assert Orphan(b, p.prefix, id);
    RecordMay(b, id, e);
    AppendHost(b, id, e, p.prefix, {}, names);
    AppendLatest(b, id, e);
    var after := Append(b, id, e);
    hide Valid, Recorded, Latest, HostClaimsAre, NamesKnown;
    assert after.log.Keys == b.log.Keys;
    hide Append;
    forall k | k != id
      ensures RunsFor(after, k, p.name) <==> RunsFor(b, k, p.name)
      ensures Orphan(after, p.prefix, k) <==> Orphan(b, p.prefix, k) {
      assert k in after.log <==> k in after.log.Keys;
      assert k in b.log <==> k in b.log.Keys;
    }
  }

  lemma CloseKeeps(w: World, id: nat)
    requires Sound(w)
    ensures Sound(Next(w, Close(id)))
  {
    hide Valid, Recorded, HostClaimsAre, NamesKnown, ClosingStands, Append;
    if w.up.Some? && w.up.value.phase.Closing? && id in w.up.value.phase.orphans {
      OrphanEnds(w.book, w.up.value, w.up.value.phase.orphans, id, w.names);
    }
  }

  lemma EnterKeeps(w: World)
    requires Sound(w)
    ensures Sound(Next(w, Enter))
  {
    hide Valid, NamesKnown, HostClaimsAre, ClosingStands, Agrees;
    if w.up.Some? && w.up.value.phase == Closing({}) {
      EnterAgrees(w.book, w.up.value);
    }
  }

  lemma EnterAgrees(b: Book, p: Process)
    requires Valid(b) && p.children == map[] && p.childKinds == map[] && p.prefix <= p.name
    requires HostClaimsAre(b, p.prefix, {}) && ClosingStands(b, p.prefix, p.name, p.lost, {})
    ensures Agrees(DeskOf(b, p), p.lost, p.name)
  {
    hide Valid, RunsFor, Latest;
    forall id ensures !ClaimedFor(b, id, p.name) {
      assert !HostClaim(b, p.prefix, id);
    }
    EmptyTablesAgree(DeskOf(b, p), p.lost, p.name);
  }

  // ---- The loop ------------------------------------------------------------

  lemma ReapKeeps(w: World, id: nat)
    requires Sound(w)
    ensures Sound(Next(w, Reap(id)))
  {
    hide Agrees, Recorded, HostClaimsAre, NamesKnown, Append;
    if w.up.Some? && w.up.value.phase.AtHead? && id in w.up.value.children {
      var p := w.up.value;
      ReapEnds(w.book, p, id, w.names);
    }
  }

  /** The end of a tracked runner is taken, and nothing else is touched. */
  lemma ReapEnds(b: Book, p: Process, id: nat, names: set<string>)
    requires Agrees(DeskOf(b, p), p.lost, p.name) && id in p.children
    requires NamesKnown(b, names) && p.name in names && HostClaimsAre(b, p.prefix, {})
    ensures id in b.log
    ensures var after := Append(b, id, Event(Exited, p.name));
      && Recorded(b, id, Event(Exited, p.name)) == Ok(after)
      && Valid(after) && NamesKnown(after, names) && HostClaimsAre(after, p.prefix, {})
      && Agrees(Desk(after, p.children - {id}, p.childKinds - {id}), p.lost, p.name)
  {
    hide Valid, Recorded, Mirrors, NoClaims, HostClaimsAre, NamesKnown, Append;
    ReapTaken(DeskOf(b, p), id, p.lost, p.name);
    AppendHost(b, id, Event(Exited, p.name), p.prefix, {}, names);
    assert {} - {id} == {};
  }

  lemma ClaimKeeps(w: World, lowDisk: bool)
    requires Sound(w)
    ensures Sound(Next(w, Claim(lowDisk)))
  {
    hide Agrees, Valid, HostClaimsAre, NamesKnown, Holding, Oldest;
    if w.up.Some? && w.up.value.phase.AtHead? {
      var p := w.up.value;
      var d := DeskOf(w.book, p);
      ClaimHolds(d, p.lost, p.name, lowDisk);
      var (after, id) := ClaimNext(d, p.name, lowDisk);
      if id.Some? {
        assert Valid(after.book);
        AppendHost(w.book, id.value, Event(Claimed, p.name), p.prefix, {}, w.names);
        assert {} + {id.value} == {id.value};
        assert id.value in after.book.command by { HoldsLogged(after, id.value, p.lost, p.name); }
      }
    }
  }

  /** A handler writes the end of one runner at most. */
  lemma StopLatest(d: Desk, c: Command, name: string, ans: Answers)
    ensures var after := StopRunner(d, c, name, ans).0;
      && after.book.command == d.book.command
      && forall k :: Latest(after.book, k) == Latest(d.book, k) || Latest(after.book, k) == Event(Stopped, name)
  {
    if c.inputs.StopInputs? && c.inputs.startId in d.book.log {
      AppendLatest(d.book, c.inputs.startId, Event(Stopped, name));
    }
    hide Append, Latest, IsTerminal, BreaksUniqueness;
  }

  lemma StopHost(d: Desk, id: nat, c: Command, lost: set<nat>, p: Process, ans: Answers, names: set<string>)
    requires Holding(d, id, lost, p.name) && HostClaimsAre(d.book, p.prefix, {id}) && NamesKnown(d.book, names)
    requires p.prefix <= p.name && p.name in names
    ensures var after := StopRunner(d, c, p.name, ans).0;
      && Holding(after, id, lost, p.name) && Valid(after.book)
      && HostClaimsAre(after.book, p.prefix, {id}) && NamesKnown(after.book, names)
      && !Unrecorded(d, after)
  {
    hide StopRunner, Unrecorded, Valid, TablesMatch, Mirrors, HostClaimsAre, NamesKnown;
    StopHandled(d, id, c, lost, p.name, ans);
    StopLatest(d, c, p.name, ans);
    StopRecorded(d, id, c, lost, p.name, ans);
    OtherClaims(d.book, StopRunner(d, c, p.name, ans).0.book, id, p, names);
  }

  lemma OtherClaims(b: Book, after: Book, id: nat, p: Process, names: set<string>)
    requires HostClaimsAre(b, p.prefix, {id}) && NamesKnown(b, names) && p.prefix <= p.name && p.name in names
    requires ClaimedFor(after, id, p.name)
    requires forall k :: Latest(after, k) == Latest(b, k) || Latest(after, k) == Event(Stopped, p.name)
    ensures HostClaimsAre(after, p.prefix, {id}) && NamesKnown(after, names)
  {
    hide Latest;
    forall k ensures HostClaim(after, p.prefix, k) <==> k in {id} {
      assert HostClaim(b, p.prefix, k) <==> k in {id};
    }
  }

  lemma StopRecorded(d: Desk, id: nat, c: Command, lost: set<nat>, name: string, ans: Answers)
    requires Holding(d, id, lost, name)
    ensures !Unrecorded(d, StopRunner(d, c, name, ans).0)
  {
    hide Holding, Recorded, Append;
    if c.inputs.StopInputs? && c.inputs.startId in d.children {
      var startId := c.inputs.startId;
      StopHolds(d, id, startId, lost, name);
      AppendGrows(d.book, startId, Event(Stopped, name));
    }
  }

  lemma AppendGrows(b: Book, id: nat, e: Event)
    requires id in b.log
    ensures Append(b, id, e) != b
  {
    assert |Append(b, id, e).log[id]| == |b.log[id]| + 1;
  }

  lemma StartShape(d: Desk, id: nat, c: Command, ans: Answers)
    requires id !in d.children && id !in d.childKinds && StartRunner(d, id, c, ans).1.Done?
    ensures var after := StartRunner(d, id, c, ans).0;
      && after.book == d.book && Without(after, id) == d
      && |d.children| < MAX_RUNNERS
      && after.children == d.children[id := ans.pid] && after.childKinds == d.childKinds[id := c.kind]
  {
    hide SameRunnerShown;
    var after := StartRunner(d, id, c, ans).0;
    assert after.children - {id} == d.children;
    assert after.childKinds - {id} == d.childKinds;
  }

  lemma StartSpawns(d: Desk, id: nat, lost: set<nat>, name: string, ans: Answers)
    requires Holding(d, id, lost, name) && id in d.book.command && IsRunnerKind(d.book.command[id].kind)
    requires StartRunner(d, id, d.book.command[id], ans).1.Done?
    ensures var after := StartRunner(d, id, d.book.command[id], ans).0;
      Spawned(after, id, lost, name) && after.book == d.book && !Unrecorded(d, after)
  {
    hide Holding, StartRunner, IsRunnerKind, Unrecorded, Without;
    ClaimedUntracked(d, id, lost, name);
    StartShape(d, id, d.book.command[id], ans);
    OneMoreTracked(d, StartRunner(d, id, d.book.command[id], ans).0, id, ans.pid);
  }

  lemma OneMoreTracked(d: Desk, after: Desk, id: nat, pid: nat)
    requires id !in d.children && after.children == d.children[id := pid]
    ensures |after.children| == |d.children| + 1 && !Unrecorded(d, after)
  {
    assert id in after.children.Keys && after.children.Keys == d.children.Keys + {id};
  }

  lemma ClaimedUntracked(d: Desk, id: nat, lost: set<nat>, name: string)
    requires Holding(d, id, lost, name)
    ensures id !in d.children && id !in d.childKinds
  {
    hide Valid, Latest;
    assert ClaimedFor(d.book, id, name);
    assert id in d.children.Keys + lost <==> RunsFor(d.book, id, name);
  }

  lemma HandleStands(b: Book, p: Process, id: nat, ans: Answers, names: set<string>)
    requires Holding(DeskOf(b, p), id, p.lost, p.name) && HostClaimsAre(b, p.prefix, {id}) && NamesKnown(b, names)
    requires p.prefix <= p.name && p.name in names && id in b.command && IsWorkerKind(b.command[id].kind)
    ensures var (after, outcome) := Gated(DeskOf(b, p), id, b.command[id], p.name, ans);
      && EndingStands(after, id, outcome, p.lost, p.name) && Valid(after.book)
      && HostClaimsAre(after.book, p.prefix, {id}) && NamesKnown(after.book, names)
      && !Unrecorded(DeskOf(b, p), after)
  {
    hide Holding, HostClaimsAre, NamesKnown, StopRunner, StartRunner, BoundedState, Spawned, Valid, Unrecorded;
    var d, c := DeskOf(b, p), b.command[id];
    HoldsValid(d, id, p.lost, p.name);
    NothingUnrecorded(d);
    BoundedOutcome(b, id, ans);
    if ans.gate.GatePasses? && IsRunnerKind(c.kind) {
      assert !IsBoundedKind(c.kind);
      if StartRunner(d, id, c, ans).1.Done? {
        StartSpawns(d, id, p.lost, p.name, ans);
      } else {
        NotStarted(d, id, c, ans);
      }
    } else if ans.gate.GatePasses? && !IsBoundedKind(c.kind) {
      StopHost(d, id, c, p.lost, p, ans, names);
    }
  }

  lemma HoldsValid(d: Desk, id: nat, lost: set<nat>, name: string)
    requires Holding(d, id, lost, name)
    ensures Valid(d.book)
  {
  }

  lemma NothingUnrecorded(d: Desk)
    ensures !Unrecorded(d, d)
  {
  }

  lemma NotStarted(d: Desk, id: nat, c: Command, ans: Answers)
    requires !StartRunner(d, id, c, ans).1.Done?
    ensures StartRunner(d, id, c, ans).0 == d
  {
  }

  lemma HandleKeeps(w: World, ans: Answers)
    requires Sound(w)
    ensures Sound(Next(w, Handle(ans)))
  {
    hide Holding, HostClaimsAre, NamesKnown, Valid, Gated, EndingStands, Unrecorded, IsWorkerKind;
    if w.up.Some? && w.up.value.phase.Executing? {
      var p := w.up.value;
      HandleStands(w.book, p, p.phase.id, ans, w.names);
    }
  }

  lemma FinishRecorded(d: Desk, id: nat, outcome: State, lost: set<nat>, name: string)
    requires EndingStands(d, id, outcome, lost, name)
    ensures id in d.book.log
    ensures var after := Append(d.book, id, Event(outcome, name));
      Recorded(d.book, id, Event(outcome, name)) == Ok(after) && Agrees(d.(book := after), lost, name)
  {
    hide Agrees, Recorded, Append, Holding, Latest;
    if outcome.Running? {
      var before := Without(d, id);
      HoldsLogged(before, id, lost, name);
      assert |before.children| < |d.children| by { assert before.children.Keys == d.children.Keys - {id}; }
      FinishStarted(before, id, d.children[id], lost, name);
      assert before.children[id := d.children[id]] == d.children;
      SameKinds(d, id, lost, name);
    } else {
      HoldsLogged(d, id, lost, name);
      FinishPlain(d, id, outcome, lost, name);
    }
  }

  lemma SameKinds(d: Desk, id: nat, lost: set<nat>, name: string)
    requires Spawned(d, id, lost, name)
    ensures Without(d, id).childKinds[id := d.book.command[id].kind] == d.childKinds
  {
    hide Holding;
  }

  lemma FinishKeeps(w: World)
    requires Sound(w)
    ensures Sound(Next(w, Finish))
  {
    hide HostClaimsAre, NamesKnown, EndingStands, Recorded, Append, Mirrors, NoClaims, TablesMatch, Valid;
    if w.up.Some? && w.up.value.phase.Ending? {
      var p := w.up.value;
      var id, e := p.phase.id, Event(p.phase.outcome, p.name);
      FinishRecorded(DeskOf(w.book, p), id, p.phase.outcome, p.lost, p.name);
      OutcomeIsNoClaim(DeskOf(w.book, p), id, p.phase.outcome, p.lost, p.name);
      AppendHost(w.book, id, e, p.prefix, {id}, w.names);
      assert {id} - {id} == {};
    }
  }

  lemma OutcomeIsNoClaim(d: Desk, id: nat, outcome: State, lost: set<nat>, name: string)
    requires EndingStands(d, id, outcome, lost, name)
    ensures !outcome.Claimed?
  {
    hide Spawned, Holding;
  }

  // ---- Leaving -------------------------------------------------------------

  lemma TrackedMayStop(d: Desk, lost: set<nat>, name: string, k: nat)
    requires Valid(d.book) && TablesMatch(d) && Mirrors(d.children.Keys + lost, d.book, name) && k in d.children
    ensures MayStop(d.book, k)
  {
    assert RunsFor(d.book, k, name);
    InTheBook(d.book, k);
    hide Valid;
  }

  lemma HeldMayStop(d: Desk, id: nat, lost: set<nat>, name: string, k: nat)
    requires Holding(d, id, lost, name) && k in d.children
    ensures MayStop(d.book, k)
  {
    hide Valid, TablesMatch, Mirrors;
    TrackedMayStop(d, lost, name, k);
  }

  lemma SpawnedMayStop(d: Desk, id: nat, lost: set<nat>, name: string, k: nat)
    requires Spawned(d, id, lost, name) && k in d.children
    ensures MayStop(d.book, k)
  {
    if k == id {
      HoldsLogged(Without(d, id), id, lost, name);
      assert ClaimedFor(d.book, id, name);
      hide Holding;
    } else {
      hide Holding;
      HeldMayStop(Without(d, id), id, lost, name, k);
    }
  }

  lemma QuitKeeps(w: World, popped: set<nat>)
    requires Sound(w)
    ensures Sound(Next(w, Quit(popped)))
  {
    hide NamesKnown, HostClaimsAre, Valid, TablesMatch, Mirrors, NoClaims, Holding, Spawned, MayStop, IsWorkerKind, IsOutcome;
    if w.up.Some? {
      var p := w.up.value;
      var d := DeskOf(w.book, p);
      if p.phase.AtHead? || p.phase.Executing? || p.phase.Ending? {
        forall k | k in p.children ensures MayStop(w.book, k) {
          match p.phase
          case AtHead => TrackedMayStop(d, p.lost, p.name, k);
          case Executing(id) => HeldMayStop(d, id, p.lost, p.name, k);
          case Ending(id, outcome) =>
            if outcome.Running? {
              SpawnedMayStop(d, id, p.lost, p.name, k);
            } else {
              HeldMayStop(d, id, p.lost, p.name, k);
            }
        }
      }
    }
  }

  lemma StopTaken(b: Book, left: set<nat>, id: nat, name: string, names: set<string>)
    requires Valid(b) && NamesKnown(b, names) && name in names && id in left && forall k | k in left :: MayStop(b, k)
    ensures id in b.log
    ensures var after := Append(b, id, Event(Stopped, name));
      && Recorded(b, id, Event(Stopped, name)) == Ok(after)
      && Valid(after) && NamesKnown(after, names) && forall k | k in left - {id} :: MayStop(after, k)
  {
    assert MayStop(b, id);
    RecordMay(b, id, Event(Stopped, name));
    AppendNames(b, id, Event(Stopped, name), names);
    AppendLatest(b, id, Event(Stopped, name));
    var after := Append(b, id, Event(Stopped, name));
    assert after.command == b.command && after.log.Keys == b.log.Keys;
    hide Valid, Recorded, Latest, NamesKnown, Append, May;
    forall k | k in left - {id} ensures MayStop(after, k) {
      assert MayStop(b, k);
      assert k in b.log.Keys;
      assert k in after.log.Keys;
    }
  }

  lemma LeaveKeeps(w: World, id: nat)
    requires Sound(w)
    ensures Sound(Next(w, Leave(id)))
  {
    hide Valid, NamesKnown, MayStop, Recorded, Append;
    if w.up.Some? && w.up.value.phase.Leaving? && id in w.up.value.phase.left {
      StopTaken(w.book, w.up.value.phase.left, id, w.up.value.name, w.names);
    }
  }

  // ---- Every history -------------------------------------------------------

  lemma StepKeeps(w: World, s: Step)
    requires Sound(w)
    ensures Sound(Next(w, s))
  {
    match s
    case Act(a) => hide Sound, Next; ActKeeps(w, a);
    case Start(prefix, name) => hide Sound, Next; StartKeeps(w, prefix, name);
    case List => hide Sound, Next; ListKeeps(w);
    case Close(id) => hide Sound, Next; CloseKeeps(w, id);
    case Enter => hide Sound, Next; EnterKeeps(w);
    case Reap(id) => hide Sound, Next; ReapKeeps(w, id);
    case Claim(lowDisk) => hide Sound, Next; ClaimKeeps(w, lowDisk);
    case Handle(answers) => hide Sound, Next; HandleKeeps(w, answers);
    case Finish => hide Sound, Next; FinishKeeps(w);
    case Quit(popped) => hide Sound, Next; QuitKeeps(w, popped);
    case Leave(id) => hide Sound, Next; LeaveKeeps(w, id);
    case Die => hide Valid, NamesKnown, Stands;
  }

  lemma {:induction false} HistorySound(w: World, steps: seq<Step>)
    requires Sound(w)
    ensures Sound(After(w, steps))
    decreases |steps|
  {
    hide Sound, Next;
    if steps != [] {
      HistorySound(w, steps[..|steps| - 1]);
      StepKeeps(After(w, steps[..|steps| - 1]), steps[|steps| - 1]);
    }
  }

  lemma EmptySound()
    ensures Sound(EMPTY_LEDGER)
  {
    hide WellTyped;
  }

  /**
   * Wherever workers are killed or interrupted, and whatever the API does meanwhile: every
   * command's events stay in order, and no event a worker writes is ever refused. At each
   * loop head of each worker its tables are exactly what the ledger shows it running, but
   * for what its start-up was not shown; that is nothing where its name is new. No other
   * claim of its host is left standing.
   */
  lemma {:induction false} EveryHistory(steps: seq<Step>)
    ensures var w := After(EMPTY_LEDGER, steps);
      && Valid(w.book) && !w.refused
      && (w.up.Some? && w.up.value.phase.AtHead? ==>
            var p := w.up.value;
            && Agrees(DeskOf(w.book, p), p.lost, p.name)
            && (p.newName ==> p.lost == {})
            && HostClaimsAre(w.book, p.prefix, {}))
  {
    hide After, Agrees, Valid, HostClaimsAre, NamesKnown;
    EmptySound();
    HistorySound(EMPTY_LEDGER, steps);
  }
}
