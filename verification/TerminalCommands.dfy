/**
 * The command ledger of the research terminal: immutable requests in the order they came,
 * and an append-only list of events for each. A command's state is its latest event.
 */
module TerminalCommands {
  import opened Wrappers

  datatype Kind =
    | StrategySearch | CandidateFreeze | DecimalRerun
    | PreregistrationRecord | HoldoutOpen | HoldoutValidate
    | WatchlistRecord | AccountRegister | AccountPolicyRecord
    | ResearchWatchStart | ResearchWatchStop
    | PaperIncubationStart | PaperIncubationStop

  predicate IsRunnerKind(k: Kind) {
    k.ResearchWatchStart? || k.PaperIncubationStart?
  }

  predicate IsStopKind(k: Kind) {
    k.ResearchWatchStop? || k.PaperIncubationStop?
  }

  /** One-shot commands, run in a child process under a time limit. */
  predicate IsBoundedKind(k: Kind) {
    || k.StrategySearch? || k.CandidateFreeze? || k.DecimalRerun?
    || k.PreregistrationRecord? || k.HoldoutOpen? || k.HoldoutValidate?
  }

  /** What a worker claims: all but the kinds the API settles at the request. */
  predicate IsWorkerKind(k: Kind) {
    !k.WatchlistRecord? && !k.AccountRegister? && !k.AccountPolicyRecord?
  }

  /** Work that waits while disk is short. */
  predicate IsHeavyKind(k: Kind) {
    k.StrategySearch? || k.CandidateFreeze? || k.DecimalRerun? || k.HoldoutValidate? || IsRunnerKind(k)
  }

  datatype State = Requested | Blocked | Claimed | Running | Succeeded | Failed | Stopped | Exited

  predicate IsTerminal(s: State) {
    s.Blocked? || s.Succeeded? || s.Failed? || s.Stopped? || s.Exited?
  }

  datatype Inputs =
    | RunnerInputs(family: string, dataset: string, symbol: string, watchlist: Option<string>)
    | StopInputs(startId: nat)
    | OtherInputs

  datatype Command = Command(kind: Kind, inputs: Inputs)

  /** The inputs a request of each kind is parsed into. */
  predicate WellTyped(c: Command) {
    (IsRunnerKind(c.kind) <==> c.inputs.RunnerInputs?) && (IsStopKind(c.kind) <==> c.inputs.StopInputs?)
  }

  /** An event and the worker its detail names, if it names one. */
  datatype Event = Event(state: State, worker: string)

  /** Requests in order of arrival, what each asks, and its events. */
  datatype Book = Book(order: seq<nat>, command: map<nat, Command>, log: map<nat, seq<Event>>)

  predicate IsOutcome(s: State) {
    s.Blocked? || s.Succeeded? || s.Failed?
  }

  predicate IsSettlement(s: State) {
    s.Succeeded? || s.Failed?
  }

  predicate IsEnd(s: State) {
    s.Stopped? || s.Exited?
  }

  /**
   * How a command's events may go: it is blocked at the request; or, of an inline kind, it
   * is settled by the API; or it is claimed once, then has one outcome or runs once and ends
   * once; nothing follows. A runner whose start was interrupted is stopped without having run.
   */
  predicate ValidEvents(k: Kind, h: seq<Event>) {
    && 1 <= |h| <= 4
    && (|h| == 1 ==> h[0].state.Requested? || h[0].state.Blocked?)
    && (|h| >= 2 ==> h[0].state.Requested?)
    && (|h| >= 2 && IsWorkerKind(k) ==> h[1].state.Claimed?)
    && (|h| >= 2 && !IsWorkerKind(k) ==> |h| == 2 && IsSettlement(h[1].state))
    && (|h| >= 3 ==> IsOutcome(h[2].state) || (IsRunnerKind(k) && (h[2].state.Running? || h[2].state.Stopped?)))
    && (|h| == 4 ==> h[2].state.Running? && IsEnd(h[3].state))
  }

  /** Every command stands once in the order of arrival. */
  ghost predicate Ordered(b: Book) {
    && (forall i, j | 0 <= i < j < |b.order| :: b.order[i] != b.order[j])
    && (forall id :: id in b.log <==> id in b.order)
  }

  predicate ValidCommand(c: Command, h: seq<Event>) {
    WellTyped(c) && ValidEvents(c.kind, h)
  }

  ghost predicate Valid(b: Book) {
    && Ordered(b)
    && b.command.Keys == b.log.Keys
    && (forall id | id in b.log :: ValidCommand(b.command[id], b.log[id]))
  }

  /** The latest event; a command that is not there reads as one that never will run. */
  function Latest(b: Book, id: nat): Event {
    if id in b.log && b.log[id] != [] then b.log[id][|b.log[id]| - 1] else Event(Blocked, "")
  }

  /** Whether the latest event is this one; not asked of BLOCKED. */
  predicate LatestIs(b: Book, id: nat, s: State) {
    Latest(b, id).state == s
  }

  function Append(b: Book, id: nat, e: Event): Book
    requires id in b.log
  {
    b.(log := b.log[id := b.log[id] + [e]])
  }

  datatype LedgerError = CommandNotFound | CommandAlreadyTerminal | OutcomeAlreadyRecorded

  predicate Has(h: seq<Event>, s: State) {
    exists i :: 0 <= i < |h| && h[i].state == s
  }

  /** The partial unique indexes: one claim, one RUNNING and one end per command. */
  predicate BreaksUniqueness(h: seq<Event>, s: State) {
    || ((s.Claimed? || s.Running?) && Has(h, s))
    || (IsTerminal(s) && (Has(h, Blocked) || Has(h, Succeeded) || Has(h, Failed) || Has(h, Stopped) || Has(h, Exited)))
  }

  /** `record`. */
  function Recorded(b: Book, id: nat, e: Event): Result<Book, LedgerError> {
    if id !in b.log || b.log[id] == [] then Err(CommandNotFound)
    else if IsTerminal(Latest(b, id).state) then Err(CommandAlreadyTerminal)
    else if BreaksUniqueness(b.log[id], e.state) then Err(OutcomeAlreadyRecorded)
    else Ok(Append(b, id, e))
  }

  /** `request`: a new command and its gate verdict. */
  function WithRequest(b: Book, id: nat, c: Command, blocked: bool): Book {
    if id in b.log || !WellTyped(c) then b
    else Book(b.order + [id], b.command[id := c], b.log[id := [Event(if blocked then Blocked else Requested, "")]])
  }

  /** What the API does to the ledger: a request, and the settlement of a request of an inline kind. */
  datatype ApiAct =
    | Request(id: nat, command: Command, blocked: bool)
    | Settle(id: nat, succeeded: bool)

  function Settlement(succeeded: bool): Event {
    Event(if succeeded then Succeeded else Failed, "")
  }

  /** A request is settled where it is still REQUESTED; a settlement that comes second is refused. */
  function WithSettlement(b: Book, id: nat, succeeded: bool): Book {
    if id !in b.command || IsWorkerKind(b.command[id].kind) || !LatestIs(b, id, Requested) then b
    else
      match Recorded(b, id, Settlement(succeeded))
      case Err(_) => b
      case Ok(after) => after
  }

  function Acted(b: Book, a: ApiAct): Book {
    match a
    case Request(id, c, blocked) => WithRequest(b, id, c, blocked)
    case Settle(id, succeeded) => WithSettlement(b, id, succeeded)
  }

  predicate Claimable(b: Book, id: nat, kinds: set<Kind>) {
    LatestIs(b, id, Requested) && id in b.command && b.command[id].kind in kinds
  }

  /** The oldest REQUESTED command of an allowed kind. */
  function Oldest(b: Book, ids: seq<nat>, kinds: set<Kind>): (r: Option<nat>)
    ensures r.Some? ==> r.value in ids && Claimable(b, r.value, kinds)
    ensures r.None? ==> forall id | id in ids :: !Claimable(b, id, kinds)
  {
    if ids == [] then None
    else if Claimable(b, ids[0], kinds) then Some(ids[0])
    else Oldest(b, ids[1..], kinds)
  }

  /** No command that came before it could have been claimed. */
  lemma {:induction false} OldestIsFirst(b: Book, ids: seq<nat>, kinds: set<Kind>)
    requires Oldest(b, ids, kinds).Some?
    ensures exists k :: 0 <= k < |ids| && ids[k] == Oldest(b, ids, kinds).value
                        && forall j | 0 <= j < k :: !Claimable(b, ids[j], kinds)
    decreases |ids|
  {
    hide Claimable;
    if Claimable(b, ids[0], kinds) {
      assert ids[0] == Oldest(b, ids, kinds).value;
    } else {
      OldestIsFirst(b, ids[1..], kinds);
      var k :| 0 <= k < |ids| - 1 && ids[1..][k] == Oldest(b, ids[1..], kinds).value
               && forall j | 0 <= j < k :: !Claimable(b, ids[1..][j], kinds);
      assert ids[k + 1] == Oldest(b, ids, kinds).value;
      forall j | 0 <= j < k + 1 ensures !Claimable(b, ids[j], kinds) {
        assert j > 0 ==> ids[j] == ids[1..][j - 1];
      }
    }
  }

  const VIEW_LIMIT := 500

  /** What a listing of the ledger shows: the newest 500 commands. */
  function Newest(b: Book): seq<nat> {
    if |b.order| <= VIEW_LIMIT then b.order else b.order[|b.order| - VIEW_LIMIT..]
  }

  /** `running(RUNNER_KINDS)` */
  function RunningShown(b: Book): set<nat> {
    set id | id in Newest(b) && LatestIs(b, id, Running) && id in b.command && IsRunnerKind(b.command[id].kind)
  }

  /** Appends an event to each of some commands. */
  function AppendEach(b: Book, ids: set<nat>, e: Event): Book {
    b.(log := map id | id in b.log :: if id in ids then b.log[id] + [e] else b.log[id])
  }

  function ClaimedUnder(b: Book, prefix: string): set<nat> {
    set id | id in b.log && LatestIs(b, id, Claimed) && prefix <= Latest(b, id).worker
  }

  // ---- Facts about valid books ---------------------------------------------

  /** The step from a command's latest state that keeps its events in order. */
  predicate May(k: Kind, from: State, to: State) {
    || (from.Requested? && if IsWorkerKind(k) then to.Claimed? else IsSettlement(to))
    || (from.Claimed? && (IsOutcome(to) || (IsRunnerKind(k) && (to.Running? || to.Stopped?))))
    || (from.Running? && IsEnd(to))
  }

  lemma EventsNext(k: Kind, h: seq<Event>, e: Event)
    requires ValidEvents(k, h) && May(k, h[|h| - 1].state, e.state)
    ensures ValidEvents(k, h + [e])
    ensures !IsTerminal(h[|h| - 1].state) && !BreaksUniqueness(h, e.state)
  {
    assert h + [e] != [];
  }

  lemma LatestOfValid(b: Book, id: nat)
    requires Valid(b) && id in b.log
    ensures b.log[id] != [] && Latest(b, id) == b.log[id][|b.log[id]| - 1]
  {
    hide Ordered, WellTyped;
    assert ValidCommand(b.command[id], b.log[id]);
  }

  /** A step that keeps a command's events in order is recorded, and keeps the book valid. */
  lemma {:induction false} RecordMay(b: Book, id: nat, e: Event)
    requires Valid(b) && id in b.log && May(b.command[id].kind, Latest(b, id).state, e.state)
    ensures Recorded(b, id, e) == Ok(Append(b, id, e)) && Valid(Append(b, id, e))
  {
    LatestOfValid(b, id);
    assert ValidCommand(b.command[id], b.log[id]);
    EventsNext(b.command[id].kind, b.log[id], e);
    OrderedSame(b, Append(b, id, e));
    hide May, BreaksUniqueness, ValidEvents, WellTyped, Ordered;
    assert ValidCommand(b.command[id], b.log[id] + [e]);
    hide ValidCommand;
  }

  lemma OrderedSame(b: Book, after: Book)
    requires Ordered(b) && after.order == b.order && after.log.Keys == b.log.Keys
    ensures Ordered(after)
  {
    forall id ensures id in after.log <==> id in after.order {
      assert id in after.log <==> id in b.log;
    }
  }

  lemma OrderedMore(b: Book, id: nat, after: Book)
    requires Ordered(b) && id !in b.log && after.order == b.order + [id] && after.log.Keys == b.log.Keys + {id}
    ensures Ordered(after)
  {
    assert forall i | 0 <= i < |b.order| :: after.order[i] == b.order[i] && b.order[i] in b.order;
    forall n ensures n in after.log <==> n in after.order {
      assert n in b.log <==> n in b.order;
    }
  }

  lemma RequestValid(b: Book, id: nat, c: Command, blocked: bool)
    requires Valid(b)
    ensures Valid(WithRequest(b, id, c, blocked))
  {
    hide WellTyped, Ordered;
    var after := WithRequest(b, id, c, blocked);
    if after != b {
      var first := Event(if blocked then Blocked else Requested, "");
      FirstEvent(c, first);
      OrderedMore(b, id, after);
      hide ValidCommand;
      assert after.log == b.log[id := [first]];
    }
  }

  lemma FirstEvent(c: Command, e: Event)
    requires WellTyped(c) && (e.state.Blocked? || e.state.Requested?)
    ensures ValidCommand(c, [e])
  {
    assert |[e]| == 1;
  }

  lemma AppendEachAt(b: Book, ids: set<nat>, e: Event)
    ensures var after := AppendEach(b, ids, e);
      && after.order == b.order && after.command == b.command && after.log.Keys == b.log.Keys
      && (forall id | id in b.log :: after.log[id] == if id in ids then b.log[id] + [e] else b.log[id])
  {
  }

  /** One event each for some commands, where each may take it. */
  lemma AppendEachValid(b: Book, ids: set<nat>, e: Event)
    requires Valid(b)
    requires forall id | id in ids && id in b.log :: May(b.command[id].kind, Latest(b, id).state, e.state)
    ensures Valid(AppendEach(b, ids, e))
  {
    var after := AppendEach(b, ids, e);
    AppendEachAt(b, ids, e);
    OrderedSame(b, after);
    forall id | id in after.log ensures ValidCommand(after.command[id], after.log[id]) {
      hide May, ValidEvents, WellTyped, AppendEach, Ordered;
      assert ValidCommand(b.command[id], b.log[id]);
      if id in ids {
        LatestOfValid(b, id);
        EventsNext(b.command[id].kind, b.log[id], e);
      }
    }
  }

  /** The latest event of each command after appending one event to some of the book's commands. */
  lemma {:induction false} AppendEachLatest(b: Book, ids: set<nat>, e: Event)
    requires forall id | id in ids :: id in b.log
    ensures forall id :: Latest(AppendEach(b, ids, e), id) == if id in ids then e else Latest(b, id)
  {
    AppendEachAt(b, ids, e);
    hide AppendEach;
  }

  lemma AppendLatest(b: Book, id: nat, e: Event)
    requires id in b.log
    ensures forall k :: Latest(Append(b, id, e), k) == if k == id then e else Latest(b, k)
  {
  }

  lemma ActedValid(b: Book, a: ApiAct)
    requires Valid(b)
    ensures Valid(Acted(b, a)) && |b.order| <= |Acted(b, a).order|
  {
    match a
    case Request(id, c, blocked) =>
      RequestValid(b, id, c, blocked);
    case Settle(id, succeeded) =>
      if id in b.command && !IsWorkerKind(b.command[id].kind) && LatestIs(b, id, Requested) {
        RecordMay(b, id, Settlement(succeeded));
      }
      hide Valid;
  }

  /** A request of an inline kind that passes its gate is settled by the API, once, whatever comes after. */
  lemma {:induction false} InlineSettled(b: Book, id: nat, c: Command, succeeded: bool, again: bool)
    requires Valid(b) && id !in b.log && WellTyped(c) && !IsWorkerKind(c.kind)
    ensures var after := Acted(Acted(b, Request(id, c, false)), Settle(id, succeeded));
      && Valid(after) && id in after.log && after.log[id] == [Event(Requested, ""), Settlement(succeeded)]
      && Acted(after, Settle(id, again)) == after
  {
    hide Ordered, ValidCommand, WellTyped, IsWorkerKind;
    var requested := Acted(b, Request(id, c, false));
    ActedValid(b, Request(id, c, false));
    ActedValid(requested, Settle(id, succeeded));
    assert requested.log[id] == [Event(Requested, "")] && Latest(requested, id) == Event(Requested, "");
    assert !IsWorkerKind(requested.command[id].kind);
    RecordMay(requested, id, Settlement(succeeded));
  }

  predicate InHands(e: Event) {
    e.state.Claimed? || e.state.Running?
  }

  /** The API touches no command a worker has in hand, and restates none. */
  lemma {:induction false} ActedLatest(b: Book, a: ApiAct)
    ensures var after := Acted(b, a);
      && (forall k :: Latest(after, k) == Latest(b, k) || (!InHands(Latest(b, k)) && !InHands(Latest(after, k))))
      && (forall k | k in b.log :: k in after.log)
      && (forall k | k in b.log && k in b.command :: k in after.command && after.command[k] == b.command[k])
  {
    hide WellTyped, BreaksUniqueness, IsTerminal, IsWorkerKind;
    match a
    case Request(id, c, blocked) =>
    case Settle(id, succeeded) =>
      if id in b.log {
        AppendLatest(b, id, Settlement(succeeded));
      }
      hide Append;
  }

  lemma AppendEachNone(b: Book, e: Event)
    ensures AppendEach(b, {}, e) == b
  {
    assert AppendEach(b, {}, e).log == b.log;
  }

  /** Appending to one more command is one more append. */
  lemma AppendEachMore(b: Book, ids: set<nat>, id: nat, e: Event)
    requires id in b.log && id !in ids
    ensures AppendEach(b, ids + {id}, e) == Append(AppendEach(b, ids, e), id, e)
  {
    assert AppendEach(b, ids + {id}, e).log == Append(AppendEach(b, ids, e), id, e).log;
  }
}
