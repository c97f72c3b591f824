/**
 * The CI shards: which tests a shard runs, the report it writes, and the check over all
 * reports that nothing was dropped.
 */
module ShardGate {
  import opened Text

  const HEAVY_MODULES: set<string> := {
    "test_dry_activation_e2e_postgres",
    "test_live_signals_v1",
    "test_live_signals_v1_postgres",
    "test_paper_incubation_v1",
    "test_paper_evidence_pipeline_v1",
    "test_paper_incubation_v1_postgres",
    "test_strategy_lab_validation_v1",
    "test_crypto_liquidity_capacity_v1_postgres",
    "test_historical_dataset_sealing_scale_postgres",
    "test_research_terminal_e2e_acceptance_postgres"
  }

  const SHARDS: seq<string> := ["core", "heavy"]

  const PERMITTED := "TARDIS_FREE_SAMPLE_DIR is not set"

  // ---- What a shard runs ---------------------------------------------------

  datatype Item = Test(id: string) | Suite(items: seq<Item>)

  /** The tests of a suite in order, nested suites flattened. */
  function TestsOf(item: Item): seq<string>
    decreases item
  {
    match item
    case Test(id) => [id]
    case Suite(items) => TestsIn(items)
  }

  function TestsIn(items: seq<Item>): seq<string>
    decreases items
  {
    if items == [] then [] else TestsOf(items[0]) + TestsIn(items[1..])
  }

  function ShardOf(id: string): string {
    if Cut(id, '.').0 in HEAVY_MODULES then "heavy" else "core"
  }

  function Selected(ids: seq<string>, shard: string): seq<string> {
    if ids == [] then []
    else (if ShardOf(ids[0]) == shard then [ids[0]] else []) + Selected(ids[1..], shard)
  }

  function Insert(x: string, s: seq<string>): seq<string> {
    if s == [] || Less(x, s[0]) then [x] + s else [s[0]] + Insert(x, s[1..])
  }

  function Sort(s: seq<string>): seq<string> {
    if s == [] then [] else Insert(s[0], Sort(s[1..]))
  }

  /** What the runner recorded: the tests it started, and those that did not simply pass. */
  datatype Result = Result(started: seq<string>, failures: seq<string>, errors: seq<string>,
                           unexpected: seq<string>, skipped: seq<(string, string)>)

  predicate WasSuccessful(r: Result) {
    r.failures == [] && r.errors == [] && r.unexpected == []
  }

  datatype Report = Report(shard: string, discovered: seq<string>, given: seq<string>, testsRun: int,
                           failures: int, errors: int, unexpected: int, skipped: seq<(string, string)>, successful: bool)

  /** `run`, up to the file it writes. */
  function Built(suite: Item, shard: string, result: Result): Report {
    var discovered := TestsOf(suite);
    Report(shard, Sort(discovered), Sort(Selected(discovered, shard)), |result.started|,
           |result.failures|, |result.errors|, |result.unexpected|, result.skipped, WasSuccessful(result))
  }

  // ---- The check -----------------------------------------------------------

  datatype Problem =
    | WrongShards(names: multiset<string>)
    | NothingDiscovered
    | DifferentSuite(shard: string)
    | AssignedTwice(id: string, first: string, second: string)
    | RanOther(shard: string, ran: int, of: int)
    | Unsuccessful(shard: string, failures: int, errors: int, unexpected: int)
    | SkippedInCi(id: string, reason: string)
    | Missing(ids: set<string>)

  function Ids(s: seq<string>): set<string> {
    set x | x in s
  }

  function Names(reports: seq<Report>): seq<string> {
    if reports == [] then [] else [reports[0].shard] + Names(reports[1..])
  }

  predicate IsAt(s: string, sub: string, i: nat) {
    i + |sub| <= |s| && s[i..i + |sub|] == sub
  }

  predicate Contains(s: string, sub: string) {
    exists i: nat :: i <= |s| && IsAt(s, sub, i)
  }

  function Repeats(ids: seq<string>, shard: string, seen: map<string, string>): seq<Problem> {
    if ids == [] then []
    else
      (if ids[0] in seen && seen[ids[0]] != shard then [AssignedTwice(ids[0], seen[ids[0]], shard)] else [])
      + Repeats(ids[1..], shard, seen[ids[0] := shard])
  }

  function Marked(ids: seq<string>, shard: string, seen: map<string, string>): map<string, string> {
    if ids == [] then seen else Marked(ids[1..], shard, seen[ids[0] := shard])
  }

  function BadSkips(skipped: seq<(string, string)>): seq<Problem> {
    if skipped == [] then []
    else (if Contains(skipped[0].1, PERMITTED) then [] else [SkippedInCi(skipped[0].0, skipped[0].1)])
         + BadSkips(skipped[1..])
  }

  function SuiteProblems(r: Report, discovered: set<string>): seq<Problem> {
    if Ids(r.discovered) != discovered then [DifferentSuite(r.shard)] else []
  }

  function RunProblems(r: Report): seq<Problem> {
    if r.testsRun != |r.given| then [RanOther(r.shard, r.testsRun, |r.given|)] else []
  }

  function OutcomeProblems(r: Report): seq<Problem> {
    if !r.successful then [Unsuccessful(r.shard, r.failures, r.errors, r.unexpected)] else []
  }

  function ReportProblems(r: Report, discovered: set<string>, seen: map<string, string>): seq<Problem> {
    SuiteProblems(r, discovered) + Repeats(r.given, r.shard, seen) + RunProblems(r) + OutcomeProblems(r)
    + BadSkips(r.skipped)
  }

  function AllProblems(reports: seq<Report>, discovered: set<string>, seen: map<string, string>): seq<Problem> {
    if reports == [] then []
    else ReportProblems(reports[0], discovered, seen)
         + AllProblems(reports[1..], discovered, Marked(reports[0].given, reports[0].shard, seen))
  }

  function AllMarked(reports: seq<Report>, seen: map<string, string>): map<string, string> {
    if reports == [] then seen else AllMarked(reports[1..], Marked(reports[0].given, reports[0].shard, seen))
  }

  function ShardProblems(reports: seq<Report>): seq<Problem> {
    if multiset(Names(reports)) != multiset(SHARDS) then [WrongShards(multiset(Names(reports)))] else []
  }

  function NoneDiscovered(discovered: set<string>): seq<Problem> {
    if discovered == {} then [NothingDiscovered] else []
  }

  function MissingProblems(missing: set<string>): seq<Problem> {
    if missing != {} then [Missing(missing)] else []
  }

  function Problems(reports: seq<Report>): seq<Problem> {
    if reports == [] then ShardProblems(reports)
    else
      var discovered := Ids(reports[0].discovered);
      ShardProblems(reports) + NoneDiscovered(discovered) + AllProblems(reports, discovered, map[])
      + MissingProblems(discovered - AllMarked(reports, map[]).Keys)
  }

  /** `verify`: one pass over the reports, with the shard last seen for each test. */
  method Verify(reports: seq<Report>) returns (problems: seq<Problem>)
    ensures problems == Problems(reports)
  {
    hide ReportProblems, Marked, Names, Ids;
    problems := [];
    if multiset(Names(reports)) != multiset(SHARDS) {
      problems := problems + [WrongShards(multiset(Names(reports)))];
    }
    if reports == [] {
      return;
    }
    var discovered := Ids(reports[0].discovered);
    if discovered == {} {
      problems := problems + [NothingDiscovered];
    }
    ghost var first := problems;
    assert first == ShardProblems(reports) + NoneDiscovered(discovered);
    var seen: map<string, string> := map[];
    var i := 0;
    assert reports[0..] == reports;
    while i < |reports|
      invariant i <= |reports|
      invariant first + AllProblems(reports, discovered, map[]) == problems + AllProblems(reports[i..], discovered, seen)
      invariant AllMarked(reports, map[]) == AllMarked(reports[i..], seen)
    {
      assert reports[i..][1..] == reports[i + 1..];
      var found: seq<Problem>;
      found, seen := VerifyOne(reports[i], discovered, seen);
      problems := problems + found;
      i := i + 1;
    }
    assert reports[i..] == [] && problems + [] == problems;
    assert problems == first + AllProblems(reports, discovered, map[]);
    var missing := discovered - seen.Keys;
    if missing != {} {
      problems := problems + [Missing(missing)];
    }
    assert problems == first + AllProblems(reports, discovered, map[]) + MissingProblems(missing);
  }

  method VerifyOne(r: Report, discovered: set<string>, before: map<string, string>)
    returns (problems: seq<Problem>, seen: map<string, string>)
    ensures problems == ReportProblems(r, discovered, before)
    ensures seen == Marked(r.given, r.shard, before)
  {
    problems := if Ids(r.discovered) != discovered then [DifferentSuite(r.shard)] else [];
    var repeats;
    repeats, seen := MarkAssigned(r.given, r.shard, before);
    problems := problems + repeats;
    problems := problems + if r.testsRun != |r.given| then [RanOther(r.shard, r.testsRun, |r.given|)] else [];
    problems := problems + if !r.successful then [Unsuccessful(r.shard, r.failures, r.errors, r.unexpected)] else [];
    var bad := CheckSkips(r.skipped);
    problems := problems + bad;
  }

  /** The loop over the tests a report assigns. */
  method MarkAssigned(ids: seq<string>, shard: string, before: map<string, string>)
    returns (problems: seq<Problem>, seen: map<string, string>)
    ensures problems == Repeats(ids, shard, before)
    ensures seen == Marked(ids, shard, before)
  {
    problems, seen := [], before;
    assert ids[0..] == ids;
    for i := 0 to |ids|
      invariant Repeats(ids, shard, before) == problems + Repeats(ids[i..], shard, seen)
      invariant Marked(ids, shard, before) == Marked(ids[i..], shard, seen)
    {
      assert ids[i..][1..] == ids[i + 1..];
      if ids[i] in seen && seen[ids[i]] != shard {
        problems := problems + [AssignedTwice(ids[i], seen[ids[i]], shard)];
      }
      seen := seen[ids[i] := shard];
    }
    assert ids[|ids|..] == [];
  }

  /** The loop over the skips a report lists. */
  method CheckSkips(skipped: seq<(string, string)>) returns (problems: seq<Problem>)
    ensures problems == BadSkips(skipped)
  {
    hide Contains;
    problems := [];
    assert skipped[0..] == skipped;
    for i := 0 to |skipped|
      invariant BadSkips(skipped) == problems + BadSkips(skipped[i..])
    {
      assert skipped[i..][1..] == skipped[i + 1..];
      if !Contains(skipped[i].1, PERMITTED) {
        problems := problems + [SkippedInCi(skipped[i].0, skipped[i].1)];
      }
    }
    assert skipped[|skipped|..] == [];
  }
}
