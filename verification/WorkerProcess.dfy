/**
 * The worker as a process: an object whose two tables change as it starts, stops and reaps
 * runners, writing to a shared command ledger. Every method is tied to the step it takes on
 * the worker's state as a value.
 */
module WorkerProcess {
  import opened Wrappers
  import opened TerminalCommands
  import opened Worker
  import opened WorkerRuns

  class CommandLedger {
    var book: Book

    constructor (start: Book)
      ensures book == start
    {
      book := start;
    }

    /** `record`: one transaction; a refused event leaves the ledger as it was. */
    method Record(id: nat, e: Event) returns (refused: Option<LedgerError>)
      modifies this
      ensures match Recorded(old(book), id, e)
              case Ok(after) => refused.None? && book == after
              case Err(why) => refused == Some(why) && book == old(book)
    {
      if id !in book.log || book.log[id] == [] {
        return Some(CommandNotFound);
      }
      if IsTerminal(Latest(book, id).state) {
        return Some(CommandAlreadyTerminal);
      }
      if BreaksUniqueness(book.log[id], e.state) {
        return Some(OutcomeAlreadyRecorded);
      }
      book := Append(book, id, e);
      return None;
    }

    /** `claim`: the oldest REQUESTED command of an allowed kind moves to CLAIMED. */
    method Claim(name: string, kinds: set<Kind>) returns (claimed: Option<nat>)
      modifies this
      ensures claimed == Oldest(old(book), old(book.order), kinds)
      ensures match claimed
              case None => book == old(book)
              case Some(id) => id in old(book.log) && book == Append(old(book), id, Event(Claimed, name))
    {
      claimed := Oldest(book, book.order, kinds);
      if claimed.Some? {
        InTheBook(book, claimed.value);
        book := Append(book, claimed.value, Event(Claimed, name));
      }
    }

    /** `abandon_stale_claims`: every claim made under the prefix fails. */
    method AbandonStaleClaims(prefix: string, name: string)
      modifies this
      ensures book == AppendEach(old(book), ClaimedUnder(old(book), prefix), Event(Failed, name))
    {
      var stale := ClaimedUnder(book, prefix);
      ghost var before := book;
      ghost var done := {};
      AppendEachNone(book, Event(Failed, name));
      assert ClaimedUnder(before, prefix) - stale == {};
      while stale != {}
        invariant stale <= ClaimedUnder(before, prefix) && done == ClaimedUnder(before, prefix) - stale
        invariant book == AppendEach(before, done, Event(Failed, name))
        decreases |stale|
      {
        var id :| id in stale;
        AppendEachMore(before, done, id, Event(Failed, name));
        book := Append(book, id, Event(Failed, name));
        stale := stale - {id};
        done := done + {id};
      }
      assert ClaimedUnder(before, prefix) - {} == ClaimedUnder(before, prefix);
    }

    /** Requests and settlements that reach the ledger through the API. */
    method Arrive(arrivals: seq<ApiAct>)
      modifies this
      ensures book == Arrived(old(book), arrivals)
    {
      for i := 0 to |arrivals|
        invariant book == Arrived(old(book), arrivals[..i])
      {
        assert arrivals[..i + 1][..i] == arrivals[..i];
        book := Acted(book, arrivals[i]);
      }
      assert arrivals[..|arrivals|] == arrivals;
    }
  }

  class WorkerProcess {
    const ledger: CommandLedger
    const name: string
    var children: map<nat, nat>
    var childKinds: map<nat, Kind>

    ghost function State(): Desk
      reads this, ledger
    {
      Desk(ledger.book, children, childKinds)
    }

    constructor (ledger: CommandLedger, name: string)
      ensures this.ledger == ledger && this.name == name
      ensures State() == Desk(ledger.book, map[], map[])
    {
      this.ledger := ledger;
      this.name := name;
      children := map[];
      childKinds := map[];
    }

    method StartRunner(id: nat, c: Command, ans: Answers) returns (reply: Reply)
      modifies this
      ensures (State(), reply) == Worker.StartRunner(old(State()), id, c, ans)
    {
      var views := RunningShown(ledger.book);
      while views != {}
        invariant views <= RunningShown(ledger.book)
        invariant forall k | k in RunningShown(ledger.book) && k !in views :: ledger.book.command[k] != c
        decreases |views|
      {
        var view :| view in views;
        if ledger.book.command[view] == c {
          assert SameRunnerShown(ledger.book, c);
          return Refused;
        }
        views := views - {view};
      }
      assert !SameRunnerShown(ledger.book, c);
      if |children| >= MAX_RUNNERS {
        return Refused;
      }
      if !ans.spawned {
        return Raised;
      }
      children := children[id := ans.pid];
      childKinds := childKinds[id := c.kind];
      return Done;
    }

    method StopRunner(c: Command, ans: Answers) returns (reply: Reply)
      modifies this, ledger
      ensures (State(), reply) == Worker.StopRunner(old(State()), c, name, ans)
    {
      if !c.inputs.StopInputs? || c.inputs.startId !in children {
        return Refused;
      }
      var startId := c.inputs.startId;
      if startId !in childKinds || childKinds[startId] != StartKindOf(c.kind) {
        return Refused;
      }
      if !ans.stopped {
        return Raised;
      }
      children := children - {startId};
      childKinds := childKinds - {startId};
      var refused := ledger.Record(startId, Event(Stopped, name));
      return if refused.Some? then Raised else Done;
    }

    /** `execute`: the gate, the handler, one outcome. */
    method Execute(id: nat, ans: Answers) returns (refused: Option<LedgerError>)
      modifies this, ledger
      ensures (State(), refused) == Worker.Execute(old(State()), id, name, ans)
    {
      hide Recorded, Worker.StartRunner, Worker.StopRunner, BoundedState;
      if id !in ledger.book.command {
        return Some(CommandNotFound);
      }
      var c := ledger.book.command[id];
      var state := Failed;
      match ans.gate {
        case GateBlocks =>
          state := Blocked;
        case GateRaises =>
          state := Failed;
        case GatePasses =>
          if IsBoundedKind(c.kind) {
            state := BoundedState(ledger.book, id, ans);
          } else if IsRunnerKind(c.kind) {
            var reply := StartRunner(id, c, ans);
            state := OutcomeOf(c.kind, reply);
          } else {
            var reply := StopRunner(c, ans);
            state := OutcomeOf(c.kind, reply);
          }
      }
      refused := ledger.Record(id, Event(state, name));
    }

    /** `reap`: runners whose process is gone leave both tables and are recorded EXITED. */
    method Reap(gone: set<nat>, ghost lost: set<nat>) returns (refused: Option<LedgerError>)
      requires Agrees(State(), lost, name)
      modifies this, ledger
      ensures refused.None? && State() == Reaped(old(State()), gone, name) && Agrees(State(), lost, name)
    {
      hide Agrees, AppendEach, Reaped, Recorded;
      var todo := children.Keys;
      ghost var before := State();
      ReapedNone(before, gone, name);
      AllEndRecorded(before, lost, name);
      assert gone - todo == gone - before.children.Keys;
      while todo != {}
        invariant todo <= before.children.Keys * children.Keys
        invariant Agrees(State(), lost, name) && State() == Reaped(before, gone - todo, name)
        decreases |todo|
      {
        var id :| id in todo;
        if id in gone {
          ReapedMore(before, gone - todo, id, name);
          assert gone - (todo - {id}) == (gone - todo) + {id};
          ReapTaken(State(), id, lost, name);
          children := children - {id};
          childKinds := childKinds - {id};
          refused := ledger.Record(id, Event(Exited, name));
          if refused.Some? {
            return;
          }
        } else {
          assert gone - (todo - {id}) == gone - todo;
        }
        todo := todo - {id};
      }
      assert gone - {} == gone;
      return None;
    }

    /** The start of `run`. */
    method StartUp(prefix: string)
      requires Valid(ledger.book) && prefix <= name
      requires children == map[] && childKinds == map[]
      modifies this, ledger
      ensures State() == Worker.StartUp(old(ledger.book), prefix, name)
    {
      hide AppendEach, Recorded, Valid, Latest, RunningShown, ClaimedUnder, Orphans;
      ghost var b := ledger.book;
      SettleLatest(b, prefix, name);
      ledger.AbandonStaleClaims(prefix, name);
      var settled := ledger.book;
      var views := RunningShown(settled);
      ghost var done := {};
      AppendEachNone(settled, Event(Exited, name));
      OrphansShown(settled, prefix);
      while views != {}
        invariant views <= RunningShown(settled) && done == Orphans(settled, prefix) - views
        invariant ledger.book == AppendEach(settled, done, Event(Exited, name))
        invariant children == map[] && childKinds == map[]
        decreases |views|
      {
        var id :| id in views;
        OrphanIs(settled, prefix, id);
        if prefix <= Latest(settled, id).worker {
          OrphanTaken(settled, done, id, name);
          AppendEachMore(settled, done, id, Event(Exited, name));
          var refused := ledger.Record(id, Event(Exited, name));
          done := done + {id};
        }
        views := views - {id};
      }
      assert Orphans(settled, prefix) - {} == Orphans(settled, prefix);
    }

    /** The `finally` of `run`: every runner left in the table is stopped; a refusal is passed over. */
    method ShutDown()
      modifies this, ledger
      ensures ledger.book == Worker.ShutDown(old(State()), name)
    {
      hide AppendEach, Recorded;
      var e := Event(Stopped, name);
      var todo := children.Keys;
      ghost var before := State();
      ghost var open := set id | id in children && Recorded(before.book, id, e).Ok?;
      ghost var done := {};
      AppendEachNone(before.book, e);
      assert open - todo == {};
      while todo != {}
        invariant todo <= children.Keys && done == open - todo
        invariant children == before.children
        invariant ledger.book == AppendEach(before.book, done, e)
        decreases |todo|
      {
        var id :| id in todo;
        RecordedApart(before.book, done, id, e);
        var refused := ledger.Record(id, e);
        if refused.None? {
          done := done + {id};
        }
        todo := todo - {id};
      }
      assert open - {} == open;
    }

    /** One turn of the loop: requests that arrived, reap, claim, execute. */
    method TakeTurn(t: Turn, ghost lost: set<nat>) returns (claimed: bool, refused: Option<LedgerError>)
      requires Agrees(State(), lost, name)
      modifies this, ledger
      ensures (State(), claimed, refused) == TurnOf(old(State()), t, name)
    {
      hide Agrees, Recorded, Worker.Execute, Arrived, Reaped, Oldest;
      ArrivedAgrees(State(), t.arrivals, lost, name);
      ledger.Arrive(t.arrivals);
      refused := Reap(t.gone, lost);
      var id := ledger.Claim(name, KindsNow(t.lowDisk));
      if id.None? {
        return false, None;
      }
      refused := Execute(id.value, t.answers);
      return true, refused;
    }

    /** `run`: start up, take turns until an idle one ends a `--once` worker, shut down. */
    method Run(turns: seq<Turn>, prefix: string, once: bool) returns (refused: Option<LedgerError>)
      requires Valid(ledger.book) && prefix <= name
      requires children == map[] && childKinds == map[]
      modifies this, ledger
      ensures (ledger.book, refused) == Worker.Run(old(ledger.book), turns, prefix, name, once)
    {
      hide Agrees, Worker.StartUp, Worker.ShutDown, TurnOf, LostRunners, Valid;
      ghost var lost := LostRunners(ledger.book, name);
      RestartAgrees(ledger.book, prefix, name);
      StartUp(prefix);
      ghost var start := State();
      var i := 0;
      var going := true;
      refused := None;
      assert turns[0..] == turns;
      while going && i < |turns|
        invariant 0 <= i <= |turns|
        invariant going ==> refused.None? && Agrees(State(), lost, name)
        invariant going ==> Turns(start, turns, name, once) == Turns(State(), turns[i..], name, once)
        invariant !going ==> Turns(start, turns, name, once) == (State(), refused)
        decreases |turns| - i, going
      {
        TurnAgrees(State(), turns[i], lost, name);
        assert turns[i..][1..] == turns[i + 1..];
        var claimed;
        claimed, refused := TakeTurn(turns[i], lost);
        i := i + 1;
        going := refused.None? && (claimed || !once);
      }
      ShutDown();
    }
  }

  // ---- Steps of the loops --------------------------------------------------

  lemma ReapedNone(d: Desk, gone: set<nat>, name: string)
    ensures Reaped(d, gone - d.children.Keys, name) == d
  {
    var ids := set id | id in d.children && id in gone - d.children.Keys;
    assert ids == {};
    AppendEachNone(d.book, Event(Exited, name));
    hide AppendEach;
  }

  lemma ReapedMore(d: Desk, gone: set<nat>, id: nat, name: string)
    requires id in d.children && id !in gone && id in d.book.log
    ensures var r := Reaped(d, gone, name);
      && id in r.book.log
      && Reaped(d, gone + {id}, name) ==
           Desk(Append(r.book, id, Event(Exited, name)), r.children - {id}, r.childKinds - {id})
  {
    var ids := set k | k in d.children && k in gone;
    var more := set k | k in d.children && k in gone + {id};
    assert more == ids + {id};
    AppendEachMore(d.book, ids, id, Event(Exited, name));
    AppendEachAt(d.book, ids, Event(Exited, name));
    assert d.children - more == d.children - ids - {id};
    assert d.childKinds - more == d.childKinds - ids - {id};
    hide AppendEach, Append;
  }

  lemma OrphanIs(b: Book, prefix: string, id: nat)
    ensures id in Orphans(b, prefix) <==> id in RunningShown(b) && prefix <= Latest(b, id).worker
  {
  }

  lemma OrphansShown(b: Book, prefix: string)
    ensures Orphans(b, prefix) - RunningShown(b) == {}
  {
  }

  lemma OrphanTaken(b: Book, done: set<nat>, id: nat, name: string)
    requires Valid(b) && id in RunningShown(b) && id !in done
    ensures id in b.log && Recorded(AppendEach(b, done, Event(Exited, name)), id, Event(Exited, name))
                           == Ok(Append(AppendEach(b, done, Event(Exited, name)), id, Event(Exited, name)))
  {
    InTheBook(b, id);
    RecordMay(b, id, Event(Exited, name));
    RecordedApart(b, done, id, Event(Exited, name));
    AppendEachMore(b, done, id, Event(Exited, name));
    hide AppendEach, Append, Recorded, Valid, Latest;
  }

  /** Whether an event is taken depends on that command's own events only. */
  lemma RecordedApart(b: Book, done: set<nat>, id: nat, e: Event)
    requires id !in done
    ensures var r := Recorded(AppendEach(b, done, e), id, e);
      && (r.Ok? <==> Recorded(b, id, e).Ok?)
      && (r.Ok? ==> id in b.log && r.value == AppendEach(b, done + {id}, e))
  {
    AppendEachAt(b, done, e);
    if id in b.log {
      AppendEachMore(b, done, id, e);
    }
    hide AppendEach, BreaksUniqueness, IsTerminal;
  }
}
