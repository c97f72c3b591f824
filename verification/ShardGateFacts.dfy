/**
 * What the check over the shard reports means: no problem exactly when the reports say the
 * suite was split and passed; and for reports written by the shards themselves, that it was.
 */
module ShardGateFacts {
  import opened Text
  import opened ShardGate

  // ---- No problem, exactly -------------------------------------------------

  predicate SkipsPermitted(skipped: seq<(string, string)>) {
    forall k | 0 <= k < |skipped| :: Contains(skipped[k].1, PERMITTED)
  }

  /** What one report must say. */
  predicate ReportFine(r: Report, discovered: set<string>) {
    Ids(r.discovered) == discovered && r.testsRun == |r.given| && r.successful && SkipsPermitted(r.skipped)
  }

  predicate SameShard(r: Report, s: Report) {
    forall id | id in r.given && id in s.given :: r.shard == s.shard
  }

  /** No test is assigned to two shards. */
  predicate NoTestTwice(reports: seq<Report>) {
    forall i, j | 0 <= i < j < |reports| :: SameShard(reports[i], reports[j])
  }

  predicate Owned(r: Report, seen: map<string, string>) {
    forall id | id in r.given && id in seen :: seen[id] == r.shard
  }

  predicate SomeAssigns(reports: seq<Report>, id: string) {
    exists k :: 0 <= k < |reports| && id in reports[k].given
  }

  lemma {:induction false} RepeatsNone(ids: seq<string>, shard: string, seen: map<string, string>)
    ensures Repeats(ids, shard, seen) == [] <==> forall id | id in ids && id in seen :: seen[id] == shard
    decreases |ids|
  {
    if ids != [] {
      RepeatsNone(ids[1..], shard, seen[ids[0] := shard]);
      assert forall id :: id in ids <==> id == ids[0] || id in ids[1..];
    }
  }

  lemma {:induction false} MarkedIs(ids: seq<string>, shard: string, seen: map<string, string>)
    ensures var after := Marked(ids, shard, seen);
      && (forall id :: id in after <==> id in ids || id in seen)
      && (forall id | id in after :: after[id] == if id in ids then shard else seen[id])
    decreases |ids|
  {
    if ids != [] {
      var once := seen[ids[0] := shard];
      MarkedIs(ids[1..], shard, once);
      var after := Marked(ids, shard, seen);
      assert after == Marked(ids[1..], shard, once);
      forall id ensures id in after <==> id in ids || id in seen
                ensures id in after ==> after[id] == if id in ids then shard else seen[id] {
        assert id in ids <==> id == ids[0] || id in ids[1..];
      }
    }
  }

  lemma {:induction false} BadSkipsNone(skipped: seq<(string, string)>)
    ensures BadSkips(skipped) == [] <==> SkipsPermitted(skipped)
    decreases |skipped|
  {
    hide Contains;
    if skipped != [] {
      BadSkipsNone(skipped[1..]);
      assert forall k | 1 <= k < |skipped| :: skipped[k] == skipped[1..][k - 1];
    }
  }

  lemma ReportProblemsNone(r: Report, discovered: set<string>, seen: map<string, string>)
    ensures ReportProblems(r, discovered, seen) == [] <==> ReportFine(r, discovered) && Owned(r, seen)
  {
    RepeatsNone(r.given, r.shard, seen);
    BadSkipsNone(r.skipped);
    hide Repeats, BadSkips, SkipsPermitted, Ids;
  }

  /** The marks left by a report own a later one exactly when the earlier marks do and the two assign no test apart. */
  lemma OwnedAfter(first: Report, r: Report, seen: map<string, string>)
    requires Owned(first, seen)
    ensures Owned(r, Marked(first.given, first.shard, seen)) && Owned(r, seen) <==> SameShard(first, r) && Owned(r, seen)
    ensures Owned(r, Marked(first.given, first.shard, seen)) ==> Owned(r, seen)
  {
    MarkedIs(first.given, first.shard, seen);
    hide Marked;
  }

  lemma {:induction false} AllProblemsNone(reports: seq<Report>, discovered: set<string>, seen: map<string, string>)
    ensures AllProblems(reports, discovered, seen) == [] <==>
            && (forall k | 0 <= k < |reports| :: ReportFine(reports[k], discovered) && Owned(reports[k], seen))
            && NoTestTwice(reports)
    decreases |reports|
  {
    hide ReportProblems, Marked, ReportFine, SameShard;
    if reports != [] {
      var first, rest := reports[0], reports[1..];
      var marked := Marked(first.given, first.shard, seen);
      ReportProblemsNone(first, discovered, seen);
      AllProblemsNone(rest, discovered, marked);
      assert forall k | 1 <= k < |reports| :: reports[k] == rest[k - 1];
      if Owned(first, seen) {
        forall k | 0 <= k < |rest|
          ensures Owned(rest[k], marked) <==> SameShard(first, rest[k]) && Owned(rest[k], seen) {
          OwnedAfter(first, rest[k], seen);
        }
      }
      hide Owned;
      if Owned(first, seen) {
        TwiceSplit(reports);
      }
    }
  }

  lemma TwiceSplit(reports: seq<Report>)
    requires reports != []
    ensures NoTestTwice(reports) <==>
            NoTestTwice(reports[1..]) && forall k | 0 <= k < |reports[1..]| :: SameShard(reports[0], reports[1..][k])
  {
    hide SameShard;
    var rest := reports[1..];
    assert forall k | 1 <= k < |reports| :: reports[k] == rest[k - 1];
    if NoTestTwice(reports) {
      forall i, j | 0 <= i < j < |rest| ensures SameShard(rest[i], rest[j]) {
        assert SameShard(reports[i + 1], reports[j + 1]);
      }
      forall k | 0 <= k < |rest| ensures SameShard(reports[0], rest[k]) {
        assert SameShard(reports[0], reports[k + 1]);
      }
    }
  }

  lemma {:induction false} AllMarkedIs(reports: seq<Report>, seen: map<string, string>, id: string)
    ensures id in AllMarked(reports, seen) <==> SomeAssigns(reports, id) || id in seen
    decreases |reports|
  {
    if reports != [] {
      var rest := reports[1..];
      MarkedIs(reports[0].given, reports[0].shard, seen);
      AllMarkedIs(rest, Marked(reports[0].given, reports[0].shard, seen), id);
      hide Marked;
      if SomeAssigns(rest, id) {
        var k :| 0 <= k < |rest| && id in rest[k].given;
        assert id in reports[k + 1].given;
      }
      if SomeAssigns(reports, id) && id !in reports[0].given {
        var k :| 0 <= k < |reports| && id in reports[k].given;
        assert id in rest[k - 1].given;
      }
    }
  }

  /** One report per shard, all of one suite, every part of it assigned and passed. */
  predicate AllIsWell(reports: seq<Report>, discovered: set<string>) {
    && discovered != {}
    && (forall k | 0 <= k < |reports| :: ReportFine(reports[k], discovered))
    && NoTestTwice(reports)
    && (forall id | id in discovered :: SomeAssigns(reports, id))
  }

  lemma NothingMissing(reports: seq<Report>, discovered: set<string>)
    ensures discovered - AllMarked(reports, map[]).Keys == {} <==> forall id | id in discovered :: SomeAssigns(reports, id)
  {
    forall id ensures id in AllMarked(reports, map[]) <==> SomeAssigns(reports, id) {
      AllMarkedIs(reports, map[], id);
    }
    hide AllMarked, SomeAssigns;
    var missing := discovered - AllMarked(reports, map[]).Keys;
    assert forall id | id in discovered :: id in missing <==> !SomeAssigns(reports, id);
  }

  lemma NoneFromAll(reports: seq<Report>, discovered: set<string>)
    ensures AllProblems(reports, discovered, map[]) == []
            <==> (forall k | 0 <= k < |reports| :: ReportFine(reports[k], discovered)) && NoTestTwice(reports)
  {
    AllProblemsNone(reports, discovered, map[]);
    forall r ensures Owned(r, map[]) {
    }
    hide AllProblems, ReportFine, NoTestTwice, Owned;
  }

  lemma FourParts(a: seq<Problem>, b: seq<Problem>, c: seq<Problem>, d: seq<Problem>)
    ensures a + b + c + d == [] <==> a == [] && b == [] && c == [] && d == []
  {
    assert |a + b + c + d| == |a| + |b| + |c| + |d|;
  }

  lemma NoReports()
    ensures Problems([]) != []
  {
    assert multiset(SHARDS)["core"] >= 1 by { assert SHARDS[0] in SHARDS; }
    assert Names([]) == [];
  }

  lemma NoProblemParts(reports: seq<Report>)
    requires reports != []
    ensures var discovered := Ids(reports[0].discovered);
      Problems(reports) == [] <==>
        && multiset(Names(reports)) == multiset(SHARDS) && discovered != {}
        && AllProblems(reports, discovered, map[]) == [] && discovered - AllMarked(reports, map[]).Keys == {}
  {
    hide AllProblems, AllMarked, Ids, Names;
    var discovered := Ids(reports[0].discovered);
    FourParts(ShardProblems(reports), NoneDiscovered(discovered), AllProblems(reports, discovered, map[]),
              MissingProblems(discovered - AllMarked(reports, map[]).Keys));
  }

  /**
   * The check finds no problem exactly when there is one report per shard, all of the same
   * non-empty suite, every report says all its tests ran and passed with only permitted
   * skips, no test is assigned to two shards and every discovered one to some.
   */
  lemma {:induction false} NoProblemExactly(reports: seq<Report>)
    ensures Problems(reports) == [] <==>
            multiset(Names(reports)) == multiset(SHARDS) && reports != [] && AllIsWell(reports, Ids(reports[0].discovered))
  {
    hide Problems, AllProblems, AllMarked, NoTestTwice, ReportFine, SomeAssigns, Ids, Names;
    if reports == [] {
      NoReports();
    } else {
      NoProblemParts(reports);
      NoneFromAll(reports, Ids(reports[0].discovered));
      NothingMissing(reports, Ids(reports[0].discovered));
    }
  }

  // ---- What the shards write -----------------------------------------------

  lemma {:induction false} SelectedIs(ids: seq<string>, shard: string, id: string)
    ensures id in Selected(ids, shard) <==> id in ids && ShardOf(id) == shard
    decreases |ids|
  {
    hide ShardOf;
    if ids != [] {
      SelectedIs(ids[1..], shard, id);
    }
  }

  lemma {:induction false} InsertKeeps(x: string, s: seq<string>)
    ensures multiset(Insert(x, s)) == multiset(s) + multiset{x}
    decreases |s|
  {
    hide Less;
    if s != [] {
      InsertKeeps(x, s[1..]);
      assert s == [s[0]] + s[1..];
    }
  }

  lemma {:induction false} SortSame(s: seq<string>)
    ensures multiset(Sort(s)) == multiset(s)
    decreases |s|
  {
    if s != [] {
      SortSame(s[1..]);
      InsertKeeps(s[0], Sort(s[1..]));
      assert s == [s[0]] + s[1..];
    }
  }

  lemma SortKeeps(s: seq<string>)
    ensures multiset(Sort(s)) == multiset(s) && |Sort(s)| == |s|
    ensures forall x :: x in Sort(s) <==> x in s
  {
    hide Sort;
    SortSame(s);
    assert |multiset(Sort(s))| == |multiset(s)|;
    forall x ensures x in Sort(s) <==> x in s {
      assert x in Sort(s) <==> x in multiset(Sort(s));
      assert x in s <==> x in multiset(s);
    }
  }

  /** One shard's job: the suite it discovered, its name, and what the runner did with the tests selected. */
  datatype Job = Job(suite: Item, shard: string, result: Result)

  function Tests(j: Job): seq<string> {
    TestsOf(j.suite)
  }

  function Chosen(j: Job): seq<string> {
    Selected(Tests(j), j.shard)
  }

  /** The runner starts nothing but the tests it was given, each at most once. */
  predicate Runs(j: Job) {
    multiset(j.result.started) <= multiset(Chosen(j))
  }

  function ReportOf(j: Job): Report {
    Built(j.suite, j.shard, j.result)
  }

  function ReportsOf(jobs: seq<Job>): (reports: seq<Report>)
    ensures |reports| == |jobs| && forall k | 0 <= k < |jobs| :: reports[k] == ReportOf(jobs[k])
  {
    seq(|jobs|, k requires 0 <= k < |jobs| => ReportOf(jobs[k]))
  }

  /** Everything selected was started, nothing failed, and only permitted skips occurred. */
  predicate CleanRun(j: Job) {
    multiset(j.result.started) == multiset(Chosen(j)) && WasSuccessful(j.result) && SkipsPermitted(j.result.skipped)
  }

  lemma {:induction false} ReportSays(j: Job)
    ensures var r := ReportOf(j);
      && r.shard == j.shard && r.successful == WasSuccessful(j.result) && r.skipped == j.result.skipped
      && r.testsRun == |j.result.started| && |r.given| == |Chosen(j)|
      && Ids(r.discovered) == Ids(Tests(j))
      && forall id :: id in r.given <==> id in Tests(j) && ShardOf(id) == j.shard
  {
    hide TestsOf, ShardOf;
    SortKeeps(Tests(j));
    SortKeeps(Chosen(j));
    forall id ensures id in ReportOf(j).given <==> id in Tests(j) && ShardOf(id) == j.shard {
      SelectedIs(Tests(j), j.shard, id);
    }
    hide Sort, Selected;
  }

  /** A part of a multiset as large as the whole is the whole. */
  lemma AllStarted(j: Job)
    requires Runs(j)
    ensures |j.result.started| == |Chosen(j)| <==> multiset(j.result.started) == multiset(Chosen(j))
  {
    hide Selected;
    var started, chosen := multiset(j.result.started), multiset(Chosen(j));
    assert chosen == started + (chosen - started);
    assert |chosen| == |started| + |chosen - started|;
  }

  lemma FineMeansClean(j: Job, discovered: set<string>)
    requires Runs(j)
    ensures ReportFine(ReportOf(j), discovered) <==> CleanRun(j) && Ids(Tests(j)) == discovered
  {
    ReportSays(j);
    AllStarted(j);
    hide Selected, ReportOf, Tests, SkipsPermitted, WasSuccessful, Runs, Ids;
  }

  predicate BothShards(a: string, b: string) {
    (a == "core" && b == "heavy") || (a == "heavy" && b == "core")
  }

  lemma NamesOf(reports: seq<Report>)
    requires multiset(Names(reports)) == multiset(SHARDS)
    ensures |reports| == 2
    ensures BothShards(reports[0].shard, reports[1].shard)
  {
    NamesCount(reports);
    assert |multiset(Names(reports))| == |multiset(SHARDS)| == 2;
    assert Names(reports[1..][1..]) == [];
    assert Names(reports) == [reports[0].shard, reports[1].shard];
    assert reports[0].shard in multiset(Names(reports)) && reports[1].shard in multiset(Names(reports));
    assert reports[0].shard in SHARDS && reports[1].shard in SHARDS;
    assert "core" != "heavy" by { assert "core"[0] != "heavy"[0]; }
    assert multiset(SHARDS)["core"] == 1 && multiset(SHARDS)["heavy"] == 1;
  }

  lemma {:induction false} NamesCount(reports: seq<Report>)
    ensures |Names(reports)| == |reports|
    decreases |reports|
  {
    if reports != [] {
      NamesCount(reports[1..]);
    }
  }

  /**
   * Soundness: if the check finds no problem in the reports of some jobs, there were two
   * jobs, one per shard, that discovered the same non-empty suite; every test of it was in
   * exactly one job's share, and in each job every copy of every test in its share was
   * started, nothing failed and only permitted skips occurred.
   */
  lemma {:induction false} CheckIsSound(jobs: seq<Job>)
    requires forall k | 0 <= k < |jobs| :: Runs(jobs[k])
    requires Problems(ReportsOf(jobs)) == []
    ensures |jobs| == 2 && BothShards(jobs[0].shard, jobs[1].shard)
    ensures Ids(Tests(jobs[0])) == Ids(Tests(jobs[1])) != {}
    ensures CleanRun(jobs[0]) && CleanRun(jobs[1])
    ensures forall id | id in Tests(jobs[0]) :: id in Chosen(jobs[0]) <==> id !in Chosen(jobs[1])
  {
    hide Problems, Runs, CleanRun, Built, Tests, ShardOf, Selected, NoTestTwice, SomeAssigns, Names, ReportFine;
    var reports := ReportsOf(jobs);
    NoProblemExactly(reports);
    NamesOf(reports);
    ReportSays(jobs[0]);
    ReportSays(jobs[1]);
    FineMeansClean(jobs[0], Ids(reports[0].discovered));
    FineMeansClean(jobs[1], Ids(reports[0].discovered));
    forall id | id in Tests(jobs[0]) ensures id in Chosen(jobs[0]) <==> id !in Chosen(jobs[1]) {
      SelectedIs(Tests(jobs[0]), jobs[0].shard, id);
      SelectedIs(Tests(jobs[1]), jobs[1].shard, id);
      SameIds(Tests(jobs[0]), Tests(jobs[1]), id);
      OneShardEach(id);
    }
  }

  lemma SameIds(a: seq<string>, b: seq<string>, id: string)
    requires Ids(a) == Ids(b)
    ensures id in a <==> id in b
  {
    assert id in a <==> id in Ids(a);
    assert id in b <==> id in Ids(b);
  }

  lemma OneShardEach(id: string)
    ensures ShardOf(id) == "core" || ShardOf(id) == "heavy"
    ensures "core" != "heavy"
  {
    assert "core"[0] != "heavy"[0];
  }

  /**
   * Completeness: clean runs of both shards over suites with the same tests never raise a
   * problem, in whatever order the reports are given and however often an id is discovered.
   */
  lemma {:induction false} CheckIsComplete(jobs: seq<Job>)
    requires |jobs| == 2 && BothShards(jobs[0].shard, jobs[1].shard)
    requires Ids(Tests(jobs[0])) == Ids(Tests(jobs[1])) != {}
    requires CleanRun(jobs[0]) && CleanRun(jobs[1])
    ensures Problems(ReportsOf(jobs)) == []
  {
    hide Problems, Runs, CleanRun, ReportOf, Tests, ShardOf, Selected, ReportFine, NoTestTwice, SomeAssigns, Names, Ids;
    var reports := ReportsOf(jobs);
    CleanRuns(jobs[0]);
    CleanRuns(jobs[1]);
    SaysNameAndSuite(jobs[0]);
    SaysNameAndSuite(jobs[1]);
    FineMeansClean(jobs[0], Ids(reports[0].discovered));
    FineMeansClean(jobs[1], Ids(reports[0].discovered));
    TwoNames(reports);
    EachAssigned(jobs, reports);
    NoProblemExactly(reports);
  }

  lemma CleanRuns(j: Job)
    requires CleanRun(j)
    ensures Runs(j)
  {
  }

  lemma SaysNameAndSuite(j: Job)
    ensures ReportOf(j).shard == j.shard && Ids(ReportOf(j).discovered) == Ids(Tests(j))
  {
    ReportSays(j);
  }

  lemma TwoNames(reports: seq<Report>)
    requires |reports| == 2
    requires BothShards(reports[0].shard, reports[1].shard)
    ensures multiset(Names(reports)) == multiset(SHARDS)
  {
    assert Names(reports[1..][1..]) == [];
    assert Names(reports) == [reports[0].shard, reports[1].shard];
  }

  /** Every test has a shard, only one, and that shard's job takes it. */
  lemma EachAssigned(jobs: seq<Job>, reports: seq<Report>)
    requires |jobs| == |reports| == 2 && reports[0] == ReportOf(jobs[0]) && reports[1] == ReportOf(jobs[1])
    requires BothShards(jobs[0].shard, jobs[1].shard)
    requires Ids(Tests(jobs[0])) == Ids(Tests(jobs[1]))
    ensures NoTestTwice(reports)
    ensures forall id | id in Ids(reports[0].discovered) :: SomeAssigns(reports, id)
  {
    hide Tests, ShardOf, ReportOf;
    ReportSays(jobs[0]);
    ReportSays(jobs[1]);
    OneShardEach("");
    assert SameShard(reports[0], reports[1]);
    forall id | id in Ids(reports[0].discovered) ensures SomeAssigns(reports, id) {
      SameIds(Tests(jobs[0]), Tests(jobs[1]), id);
      assert id in Ids(Tests(jobs[0]));
      OneShardEach(id);
      assert id in reports[0].given || id in reports[1].given;
    }
  }
}
