/**
 * A run of the worker is one of the histories: what its turns do in one go is what single
 * writes do one after the other.
 */
module WorkerRefinement {
  import opened Wrappers
  import opened TerminalCommands
  import opened Worker
  import opened WorkerRuns
  import opened WorkerHistory

  /** Some steps lead from one to the other. */
  ghost predicate Reaches(w: World, v: World) {
    exists steps :: After(w, steps) == v
  }

  lemma {:induction false} AfterBoth(w: World, first: seq<Step>, rest: seq<Step>)
    ensures After(w, first + rest) == After(After(w, first), rest)
    decreases |rest|
  {
    hide Next;
    if rest == [] {
      assert first + [] == first;
    } else {
      var n := |rest| - 1;
      AfterBoth(w, first, rest[..n]);
      assert (first + rest)[..|first| + n] == first + rest[..n];
    }
  }

  lemma ReachesOn(w: World, v: World, u: World)
    requires Reaches(w, v) && Reaches(v, u)
    ensures Reaches(w, u)
  {
    hide After;
    var first :| After(w, first) == v;
    var rest :| After(v, rest) == u;
    AfterBoth(w, first, rest);
  }

  lemma ReachesSelf(w: World)
    ensures Reaches(w, w)
  {
    assert After(w, []) == w;
  }

  lemma ReachesNext(w: World, s: Step)
    ensures Reaches(w, Next(w, s))
  {
    hide Next;
    assert [s][..0] == [];
    assert After(w, [s]) == Next(w, s);
  }

  /** One event each for some commands: the first of them, then the rest. */
  lemma EachAfterOne(b: Book, ids: set<nat>, id: nat, e: Event)
    requires id in ids && id in b.log
    ensures AppendEach(Append(b, id, e), ids - {id}, e) == AppendEach(b, ids, e)
  {
    assert AppendEach(Append(b, id, e), ids - {id}, e).log == AppendEach(b, ids, e).log;
  }

  // ---- Start-up ------------------------------------------------------------

  function Closed(w: World, p: Process, orphans: set<nat>): World {
    w.(book := AppendEach(w.book, orphans, Event(Exited, p.name)), up := Some(p.(phase := Closing({}))))
  }

  lemma {:induction false} CloseReaches(w: World, p: Process, orphans: set<nat>)
    requires Sound(w) && w.up == Some(p) && p.phase == Closing(orphans)
    ensures Reaches(w, Closed(w, p, orphans))
    decreases |orphans|
  {
    hide Sound, Next, Reaches, AppendEach, Append, Recorded;
    if orphans == {} {
      AppendEachNone(w.book, Event(Exited, p.name));
      ReachesSelf(w);
    } else {
      var id :| id in orphans;
      CloseIs(w, p, orphans, id);
      StepKeeps(w, Close(id));
      var v := Next(w, Close(id));
      ReachesNext(w, Close(id));
      EachAfterOne(w.book, orphans, id, Event(Exited, p.name));
      CloseReaches(v, p.(phase := Closing(orphans - {id})), orphans - {id});
      ReachesOn(w, v, Closed(w, p, orphans));
    }
  }

  lemma CloseIs(w: World, p: Process, orphans: set<nat>, id: nat)
    requires Sound(w) && w.up == Some(p) && p.phase == Closing(orphans) && id in orphans
    ensures id in w.book.log
    ensures Next(w, Close(id)) ==
            w.(book := Append(w.book, id, Event(Exited, p.name)), up := Some(p.(phase := Closing(orphans - {id}))))
  {
    hide Valid, Recorded, HostClaimsAre, NamesKnown, ClosingStands, Append;
    OrphanEnds(w.book, p, orphans, id, w.names);
  }

  /** The loop head with this desk. */
  function HeadWith(w: World, p: Process, d: Desk): World {
    w.(book := d.book, up := Some(p.(children := d.children, childKinds := d.childKinds, phase := AtHead)))
  }

  function FirstHead(w: World, prefix: string, name: string): Process {
    var settled := AppendEach(w.book, ClaimedUnder(w.book, prefix), Event(Failed, name));
    Process(prefix, name, name !in w.names, LostRunners(settled, name), map[], map[], AtHead)
  }

  lemma StartReaches(w: World, prefix: string, name: string)
    requires Sound(w) && w.up.None? && prefix <= name
    ensures Reaches(w, HeadWith(w.(names := w.names + {name}), FirstHead(w, prefix, name), StartUp(w.book, prefix, name)))
  {
    hide Sound, Reaches, AppendEach, Orphans, LostRunners, ClaimedUnder;
    var w1 := Next(w, Start(prefix, name));
    StepKeeps(w, Start(prefix, name));
    ReachesNext(w, Start(prefix, name));
    var w2 := Next(w1, List);
    StepKeeps(w1, List);
    ReachesNext(w1, List);
    ReachesOn(w, w1, w2);
    var p := w2.up.value;
    CloseReaches(w2, p, Orphans(w1.book, prefix));
    var w3 := Closed(w2, p, Orphans(w1.book, prefix));
    ReachesOn(w, w2, w3);
    ReachesNext(w3, Enter);
    ReachesOn(w, w3, Next(w3, Enter));
  }

  // ---- A turn --------------------------------------------------------------

  lemma {:induction false} ActsReach(w: World, arrivals: seq<ApiAct>)
    requires Sound(w)
    ensures Reaches(w, w.(book := Arrived(w.book, arrivals))) && Sound(w.(book := Arrived(w.book, arrivals)))
    decreases |arrivals|
  {
    hide Sound, Reaches, Acted;
    if arrivals == [] {
      ReachesSelf(w);
    } else {
      var n := |arrivals| - 1;
      ActsReach(w, arrivals[..n]);
      var v := w.(book := Arrived(w.book, arrivals[..n]));
      StepKeeps(v, Act(arrivals[n]));
      ReachesNext(v, Act(arrivals[n]));
      ReachesOn(w, v, Next(v, Act(arrivals[n])));
    }
  }

  lemma ReapIs(w: World, p: Process, id: nat)
    requires Sound(w) && w.up == Some(p) && p.phase.AtHead? && id in p.children
    ensures id in w.book.log
    ensures Next(w, Reap(id)) ==
            HeadWith(w, p, Desk(Append(w.book, id, Event(Exited, p.name)), p.children - {id}, p.childKinds - {id}))
  {
    hide Agrees, Recorded, HostClaimsAre, NamesKnown, Append;
    ReapEnds(w.book, p, id, w.names);
  }

  lemma ReapedFirst(d: Desk, gone: set<nat>, id: nat, name: string)
    requires id in d.children && id in gone && id in d.book.log
    ensures Reaped(Desk(Append(d.book, id, Event(Exited, name)), d.children - {id}, d.childKinds - {id}), gone, name)
            == Reaped(d, gone, name)
  {
    var ids := set k | k in d.children && k in gone;
    var rest := set k | k in d.children - {id} && k in gone;
    assert rest == ids - {id};
    EachAfterOne(d.book, ids, id, Event(Exited, name));
    hide AppendEach, Append;
    assert d.children - {id} - rest == d.children - ids;
    assert d.childKinds - {id} - rest == d.childKinds - ids;
  }

  lemma {:induction false} ReapReaches(w: World, p: Process, gone: set<nat>)
    requires Sound(w) && w.up == Some(p) && p.phase.AtHead?
    ensures Reaches(w, HeadWith(w, p, Reaped(DeskOf(w.book, p), gone, p.name)))
    ensures Sound(HeadWith(w, p, Reaped(DeskOf(w.book, p), gone, p.name)))
    decreases |p.children|
  {
    hide Sound, Next, Reaches, Reaped, Append;
    if id :| id in p.children && id in gone {
      ReapIs(w, p, id);
      StepKeeps(w, Reap(id));
      var v := Next(w, Reap(id));
      ReachesNext(w, Reap(id));
      ReapedFirst(DeskOf(w.book, p), gone, id, p.name);
      FewerWithout(p.children, id);
      ReapReaches(v, v.up.value, gone);
      ReachesOn(w, v, HeadWith(w, p, Reaped(DeskOf(w.book, p), gone, p.name)));
    } else {
      NoneGone(DeskOf(w.book, p), gone, p.name);
      ReachesSelf(w);
    }
  }

  lemma FewerWithout(m: map<nat, nat>, id: nat)
    requires id in m
    ensures |m - {id}| < |m|
  {
    assert (m - {id}).Keys == m.Keys - {id};
  }

  lemma NoneGone(d: Desk, gone: set<nat>, name: string)
    requires forall id | id in d.children :: id !in gone
    ensures Reaped(d, gone, name) == d
  {
    var ids := set id | id in d.children && id in gone;
    assert ids == {};
    AppendEachNone(d.book, Event(Exited, name));
    hide AppendEach;
  }

  lemma ExecuteReaches(w: World, p: Process, id: nat, ans: Answers)
    requires Sound(w) && w.up == Some(p) && p.phase == Executing(id)
    ensures var (after, error) := Execute(DeskOf(w.book, p), id, p.name, ans);
      error.None? && Reaches(w, HeadWith(w, p, after)) && Sound(HeadWith(w, p, after))
  {
    hide Reaches, Sound, Gated, Recorded, Unrecorded;
    ExecutingKnown(w, p, id);
    StepKeeps(w, Handle(ans));
    var v := Next(w, Handle(ans));
    NeverRefused(v);
    StepKeeps(v, Finish);
    var u := Next(v, Finish);
    NeverRefused(u);
    ReachesNext(w, Handle(ans));
    ReachesNext(v, Finish);
    ReachesOn(w, v, u);
  }

  lemma NeverRefused(w: World)
    requires Sound(w)
    ensures !w.refused
  {
    hide Valid, NamesKnown, Stands;
  }

  lemma ExecutingKnown(w: World, p: Process, id: nat)
    requires Sound(w) && w.up == Some(p) && p.phase == Executing(id)
    ensures id in w.book.command && !w.refused
  {
    hide Valid, NamesKnown, Holding, HostClaimsAre;
  }

  lemma TurnReaches(w: World, p: Process, t: Turn)
    requires Sound(w) && w.up == Some(p) && p.phase.AtHead?
    ensures var (after, claimed, error) := TurnOf(DeskOf(w.book, p), t, p.name);
      error.None? && Reaches(w, HeadWith(w, p, after)) && Sound(HeadWith(w, p, after))
  {
    hide Sound, Reaches, Arrived, Reaped, ClaimNext, Execute;
    ActsReach(w, t.arrivals);
    var w1 := w.(book := Arrived(w.book, t.arrivals));
    ReapReaches(w1, p, t.gone);
    var d := Reaped(DeskOf(w1.book, p), t.gone, p.name);
    var w2 := HeadWith(w, p, d);
    ReachesOn(w, w1, w2);
    StepKeeps(w2, Claim(t.lowDisk));
    ReachesNext(w2, Claim(t.lowDisk));
    var w3 := Next(w2, Claim(t.lowDisk));
    ReachesOn(w, w2, w3);
    var (after, id) := ClaimNext(d, p.name, t.lowDisk);
    ClaimOnly(d, p.name, t.lowDisk);
    if id.Some? {
      ExecuteReaches(w3, w3.up.value, id.value, t.answers);
      ReachesOn(w, w3, HeadWith(w, p, Execute(after, id.value, p.name, t.answers).0));
    }
  }

  lemma ClaimOnly(d: Desk, name: string, lowDisk: bool)
    ensures var (after, id) := ClaimNext(d, name, lowDisk);
      after.children == d.children && after.childKinds == d.childKinds && (id.None? ==> after == d)
  {
    hide Append, Oldest;
  }

  lemma {:induction false} TurnsReach(w: World, p: Process, turns: seq<Turn>, once: bool)
    requires Sound(w) && w.up == Some(p) && p.phase.AtHead?
    ensures var (after, error) := Turns(DeskOf(w.book, p), turns, p.name, once);
      error.None? && Reaches(w, HeadWith(w, p, after)) && Sound(HeadWith(w, p, after))
    decreases |turns|
  {
    hide Sound, Reaches, TurnOf;
    if turns == [] {
      ReachesSelf(w);
    } else {
      TurnReaches(w, p, turns[0]);
      var (after, claimed, error) := TurnOf(DeskOf(w.book, p), turns[0], p.name);
      if claimed || !once {
        var v := HeadWith(w, p, after);
        TurnsReach(v, v.up.value, turns[1..], once);
        ReachesOn(w, v, HeadWith(w, p, Turns(DeskOf(w.book, p), turns, p.name, once).0));
      }
    }
  }

  // ---- The end -------------------------------------------------------------

  function Left(w: World, p: Process, left: set<nat>): World {
    w.(book := AppendEach(w.book, left, Event(Stopped, p.name)), up := Some(p.(phase := Leaving({}))))
  }

  lemma LeaveIs(w: World, p: Process, left: set<nat>, id: nat)
    requires Sound(w) && w.up == Some(p) && p.phase == Leaving(left) && id in left
    ensures id in w.book.log
    ensures Next(w, Leave(id)) ==
            w.(book := Append(w.book, id, Event(Stopped, p.name)), up := Some(p.(phase := Leaving(left - {id}))))
  {
    hide Valid, Recorded, NamesKnown, MayStop, Append;
    StopTaken(w.book, left, id, p.name, w.names);
  }

  lemma {:induction false} LeaveReaches(w: World, p: Process, left: set<nat>)
    requires Sound(w) && w.up == Some(p) && p.phase == Leaving(left)
    ensures Reaches(w, Left(w, p, left))
    decreases |left|
  {
    hide Sound, Next, Reaches, AppendEach, Append;
    if left == {} {
      AppendEachNone(w.book, Event(Stopped, p.name));
      ReachesSelf(w);
    } else {
      var id :| id in left;
      LeaveIs(w, p, left, id);
      StepKeeps(w, Leave(id));
      var v := Next(w, Leave(id));
      ReachesNext(w, Leave(id));
      EachAfterOne(w.book, left, id, Event(Stopped, p.name));
      LeaveReaches(v, p.(phase := Leaving(left - {id})), left - {id});
      ReachesOn(w, v, Left(w, p, left));
    }
  }

  lemma ShutDownReaches(w: World, p: Process)
    requires Sound(w) && w.up == Some(p) && p.phase.AtHead?
    ensures Reaches(w, w.(book := ShutDown(DeskOf(w.book, p), p.name), up := None))
  {
    hide Sound, Reaches, AppendEach, ShutDown;
    ShutDownIs(w, p);
    StepKeeps(w, Quit({}));
    ReachesNext(w, Quit({}));
    var v := Next(w, Quit({}));
    assert p.children.Keys - {} == p.children.Keys;
    LeaveReaches(v, v.up.value, p.children.Keys);
    var u := Left(v, v.up.value, p.children.Keys);
    ReachesOn(w, v, u);
    ReachesNext(u, Die);
    ReachesOn(w, u, Next(u, Die));
  }

  lemma ShutDownIs(w: World, p: Process)
    requires Sound(w) && w.up == Some(p) && p.phase.AtHead?
    ensures ShutDown(DeskOf(w.book, p), p.name) == AppendEach(w.book, p.children.Keys, Event(Stopped, p.name))
  {
    hide Agrees, Valid, NamesKnown, HostClaimsAre, ShutDown, AppendEach;
    AllEndRecorded(DeskOf(w.book, p), p.lost, p.name);
  }

  /** Whatever a whole run of turns leaves in the ledger, single steps leave there as well. */
  lemma {:induction false} RunIsAHistory(w: World, turns: seq<Turn>, prefix: string, name: string, once: bool)
    requires Sound(w) && w.up.None? && prefix <= name
    ensures var (after, error) := Run(w.book, turns, prefix, name, once);
      error.None? && Reaches(w, World(after, None, w.names + {name}, w.refused))
  {
    hide Reaches, StartUp, Turns, ShutDown, Stands, NamesKnown, Valid, LostRunners, AppendEach, ClaimedUnder;
    StartReaches(w, prefix, name);
    var p := FirstHead(w, prefix, name);
    var w1 := HeadWith(w.(names := w.names + {name}), p, StartUp(w.book, prefix, name));
    ReachedSound(w, w1);
    TurnsReach(w1, w1.up.value, turns, once);
    var w2 := HeadWith(w1, w1.up.value, Turns(StartUp(w.book, prefix, name), turns, name, once).0);
    ReachesOn(w, w1, w2);
    ShutDownReaches(w2, w2.up.value);
    ReachesOn(w, w2, w2.(book := ShutDown(DeskOf(w2.book, w2.up.value), name), up := None));
  }

  lemma ReachedSound(w: World, v: World)
    requires Sound(w) && Reaches(w, v)
    ensures Sound(v)
  {
    hide Sound, After;
    var steps :| After(w, steps) == v;
    HistorySound(w, steps);
  }
}
