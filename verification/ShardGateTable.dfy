/**
 * Which shard a test belongs to, and which problems the check reports: each one exactly when
 * the reports say so.
 */
module ShardGateTable {
  import opened Text
  import opened ShardGate
  import opened ShardGateFacts

  // ---- Shards --------------------------------------------------------------

  predicate HeavyModule(m: string) {
    || m == "test_dry_activation_e2e_postgres"
    || m == "test_live_signals_v1"
    || m == "test_live_signals_v1_postgres"
    || m == "test_paper_incubation_v1"
    || m == "test_paper_evidence_pipeline_v1"
    || m == "test_paper_incubation_v1_postgres"
    || m == "test_strategy_lab_validation_v1"
    || m == "test_crypto_liquidity_capacity_v1_postgres"
    || m == "test_historical_dataset_sealing_scale_postgres"
    || m == "test_research_terminal_e2e_acceptance_postgres"
  }

  /** What precedes the test's first dot, or all of it, is this module. */
  predicate InModule(id: string, m: string) {
    '.' !in m && (id == m || m + "." <= id)
  }

  lemma HeavyModules(m: string)
    ensures HeavyModule(m) <==> m in HEAVY_MODULES
  {
  }

  lemma ModuleIs(id: string, m: string)
    ensures InModule(id, m) <==> m == Cut(id, '.').0
  {
    var (head, _, rest) := Cut(id, '.');
    assert '.' !in head && (id == head || id == head + "." + rest);
    if InModule(id, m) && id != m {
      assert id == m + ['.'] + id[|m| + 1..];
      CutAt(m, '.', id[|m| + 1..]);
    }
  }

  /** A test goes to the heavy shard exactly when it is in a heavy module, and otherwise to the core. */
  lemma {:induction false} ShardOfExactly(id: string)
    ensures ShardOf(id) == "heavy" <==> exists m :: HeavyModule(m) && InModule(id, m)
    ensures ShardOf(id) == "core" <==> !exists m :: HeavyModule(m) && InModule(id, m)
  {
    assert "core"[0] != "heavy"[0];
    var head := Cut(id, '.').0;
    HeavyModules(head);
    ModuleIs(id, head);
    forall m | InModule(id, m) ensures m == head {
      ModuleIs(id, m);
    }
    assert ShardOf(id) == if HeavyModule(head) then "heavy" else "core";
    hide HeavyModule, InModule, ShardOf;
  }

  // ---- What a report says --------------------------------------------------

  predicate Ascending(s: seq<string>) {
    forall i, j | 0 <= i < j < |s| :: !Less(s[j], s[i])
  }

  lemma NotLess(a: string, b: string, c: string)
    requires !Less(b, a) && !Less(c, b)
    ensures !Less(c, a)
  {
    LessTotal(a, b);
    LessTotal(b, c);
    hide Less;
    if Less(c, a) && a != b && b != c {
      LessTransitive(a, b, c);
      LessTransitive(a, c, a);
      LessTotal(a, a);
    }
  }

  lemma {:induction false} InsertAscends(x: string, s: seq<string>)
    requires Ascending(s)
    ensures Ascending(Insert(x, s))
    decreases |s|
  {
    hide Less;
    if s != [] {
      LessTotal(x, s[0]);
      var t := Insert(x, s[1..]);
      if Less(x, s[0]) {
        forall j | 0 <= j < |s| ensures !Less(s[j], x) {
          if j > 0 {
            NotLess(x, s[0], s[j]);
          }
        }
      } else {
        InsertAscends(x, s[1..]);
        InsertKeeps(x, s[1..]);
        forall j | 0 <= j < |t| ensures !Less(t[j], s[0]) {
          assert t[j] in multiset(t);
          assert t[j] == x || t[j] in s[1..];
        }
      }
    }
  }

  lemma {:induction false} SortAscends(s: seq<string>)
    ensures Ascending(Sort(s))
    decreases |s|
  {
    if s != [] {
      SortAscends(s[1..]);
      InsertAscends(s[0], Sort(s[1..]));
    }
  }

  /** A report lists the suite and the shard's share of it in order, and counts what the runner recorded. */
  lemma {:induction false} ReportListsInOrder(j: Job)
    ensures var r := ReportOf(j);
      && Ascending(r.discovered) && multiset(r.discovered) == multiset(TestsOf(j.suite))
      && Ascending(r.given) && multiset(r.given) == multiset(Selected(TestsOf(j.suite), j.shard))
      && r.failures == |j.result.failures| && r.errors == |j.result.errors| && r.unexpected == |j.result.unexpected|
      && (r.successful <==> r.failures == 0 && r.errors == 0 && r.unexpected == 0)
  {
    SortAscends(Tests(j));
    SortAscends(Chosen(j));
    SortKeeps(Tests(j));
    SortKeeps(Chosen(j));
    hide Ascending, Sort, Selected, TestsOf;
  }

  // ---- Problems ------------------------------------------------------------

  /** The report of this number assigns the test to `second`; the last one before it to do so, to `first`. */
  ghost predicate Reassigned(reports: seq<Report>, j: int, k: int, id: string) {
    && 0 <= j < k < |reports| && id in reports[j].given && id in reports[k].given
    && reports[j].shard != reports[k].shard
    && forall m | j < m < k :: id !in reports[m].given
  }

  /** When a problem is due. */
  ghost predicate Due(reports: seq<Report>, p: Problem) {
    match p
    case WrongShards(names) =>
      && names == multiset(seq(|reports|, k requires 0 <= k < |reports| => reports[k].shard))
      && names != multiset{"core", "heavy"}
    case NothingDiscovered => reports != [] && reports[0].discovered == []
    case DifferentSuite(shard) =>
      exists k, id :: 0 <= k < |reports| && reports[k].shard == shard
                      && (id in reports[k].discovered <==> id !in reports[0].discovered)
    case AssignedTwice(id, first, second) =>
      exists j, k :: Reassigned(reports, j, k, id) && reports[j].shard == first && reports[k].shard == second
    case RanOther(shard, ran, of) =>
      exists k :: 0 <= k < |reports| && reports[k].shard == shard && reports[k].testsRun == ran
                  && |reports[k].given| == of && ran != of
    case Unsuccessful(shard, failures, errors, unexpected) =>
      exists k :: 0 <= k < |reports| && reports[k].shard == shard && reports[k].failures == failures
                  && reports[k].errors == errors && reports[k].unexpected == unexpected && !reports[k].successful
    case SkippedInCi(id, reason) =>
      exists k :: 0 <= k < |reports| && (id, reason) in reports[k].skipped && !Mentions(reason)
    case Missing(ids) =>
      && reports != [] && ids != {}
      && forall id :: id in ids <==> id in reports[0].discovered && forall k | 0 <= k < |reports| :: id !in reports[k].given
  }

  /** The one permitted reason occurs in the text. */
  ghost predicate Mentions(reason: string) {
    exists before, after :: reason == before + "TARDIS_FREE_SAMPLE_DIR is not set" + after
  }

  lemma ContainsIs(s: string)
    ensures Contains(s, PERMITTED) <==> Mentions(s)
  {
    if Contains(s, PERMITTED) {
      var i: nat :| i <= |s| && IsAt(s, PERMITTED, i);
      assert s == s[..i] + PERMITTED + s[i + |PERMITTED|..];
    }
    if before, after :| s == before + PERMITTED + after {
      assert IsAt(s, PERMITTED, |before|);
    }
  }

  // ---- One report ----------------------------------------------------------

  /** When one report, after the marks of the earlier ones, gives rise to a problem. */
  ghost predicate DueOf(r: Report, discovered: set<string>, seen: map<string, string>, p: Problem) {
    match p
    case DifferentSuite(shard) => shard == r.shard && Ids(r.discovered) != discovered
    case AssignedTwice(id, first, second) =>
      id in r.given && id in seen && seen[id] == first && second == r.shard && first != second
    case RanOther(shard, ran, of) => shard == r.shard && ran == r.testsRun && of == |r.given| && ran != of
    case Unsuccessful(shard, failures, errors, unexpected) =>
      shard == r.shard && failures == r.failures && errors == r.errors && unexpected == r.unexpected && !r.successful
    case SkippedInCi(id, reason) => (id, reason) in r.skipped && !Contains(reason, PERMITTED)
    case _ => false
  }

  lemma {:induction false} RepeatsExactly(ids: seq<string>, shard: string, seen: map<string, string>, p: Problem)
    ensures p in Repeats(ids, shard, seen) <==>
            p.AssignedTwice? && p.id in ids && p.id in seen && seen[p.id] == p.first && p.second == shard && p.first != shard
    decreases |ids|
  {
    if ids != [] {
      RepeatsExactly(ids[1..], shard, seen[ids[0] := shard], p);
      assert p.AssignedTwice? ==> (p.id in ids <==> p.id == ids[0] || p.id in ids[1..]);
    }
  }

  lemma {:induction false} BadSkipsExactly(skipped: seq<(string, string)>, p: Problem)
    ensures p in BadSkips(skipped) <==>
            p.SkippedInCi? && (p.id, p.reason) in skipped && !Contains(p.reason, PERMITTED)
    decreases |skipped|
  {
    hide Contains;
    if skipped != [] {
      BadSkipsExactly(skipped[1..], p);
      assert p.SkippedInCi? ==> ((p.id, p.reason) in skipped <==> (p.id, p.reason) == skipped[0] || (p.id, p.reason) in skipped[1..]);
    }
  }

  lemma ReportExactly(r: Report, discovered: set<string>, seen: map<string, string>, p: Problem)
    ensures p in ReportProblems(r, discovered, seen) <==> DueOf(r, discovered, seen, p)
  {
    RepeatsExactly(r.given, r.shard, seen, p);
    BadSkipsExactly(r.skipped, p);
    hide Repeats, BadSkips, Contains, Ids;
  }

  // ---- All reports ---------------------------------------------------------

  ghost predicate DueAmong(reports: seq<Report>, discovered: set<string>, p: Problem, k: int)
  {
    0 <= k < |reports| && DueOf(reports[k], discovered, AllMarked(reports[..k], map[]), p)
  }

  lemma {:induction false} MarkedMore(reports: seq<Report>, seen: map<string, string>)
    requires reports != []
    ensures var n := |reports| - 1;
      AllMarked(reports, seen) == Marked(reports[n].given, reports[n].shard, AllMarked(reports[..n], seen))
    decreases |reports|
  {
    hide Marked;
    if |reports| > 1 {
      MarkedMore(reports[1..], Marked(reports[0].given, reports[0].shard, seen));
      assert reports[1..][..|reports| - 2] == reports[..|reports| - 1][1..];
    } else {
      assert reports[1..] == [] && reports[..0] == [];
    }
  }

  lemma {:induction false} AllProblemsMore(reports: seq<Report>, discovered: set<string>, seen: map<string, string>)
    requires reports != []
    ensures var n := |reports| - 1;
      AllProblems(reports, discovered, seen) ==
      AllProblems(reports[..n], discovered, seen) + ReportProblems(reports[n], discovered, AllMarked(reports[..n], seen))
    decreases |reports|
  {
    hide Marked, ReportProblems;
    if |reports| > 1 {
      AllProblemsMore(reports[1..], discovered, Marked(reports[0].given, reports[0].shard, seen));
      assert reports[1..][..|reports| - 2] == reports[..|reports| - 1][1..];
    } else {
      assert reports[1..] == [] && reports[..0] == [];
    }
  }

  lemma {:induction false} AllProblemsExactly(reports: seq<Report>, discovered: set<string>, p: Problem)
    ensures p in AllProblems(reports, discovered, map[]) <==> exists k :: DueAmong(reports, discovered, p, k)
    decreases |reports|
  {
    hide ReportProblems, DueOf, AllMarked;
    if reports != [] {
      var n := |reports| - 1;
      var front := reports[..n];
      AllProblemsMore(reports, discovered, map[]);
      AllProblemsExactly(front, discovered, p);
      ReportExactly(reports[n], discovered, AllMarked(front, map[]), p);
      hide AllProblems;
      if k :| DueAmong(front, discovered, p, k) {
        assert front[..k] == reports[..k];
        assert DueAmong(reports, discovered, p, k);
      }
      if k :| DueAmong(reports, discovered, p, k) {
        assert k < n ==> front[..k] == reports[..k];
        assert k < n ==> DueAmong(front, discovered, p, k);
      }
      assert p in ReportProblems(reports[n], discovered, AllMarked(front, map[])) ==> DueAmong(reports, discovered, p, n);
    }
  }

  /** The mark a test bears is the shard of the last report that assigned it. */
  lemma {:induction false} MarkIsLast(reports: seq<Report>, id: string) returns (j: int)
    ensures id in AllMarked(reports, map[]) ==>
              && 0 <= j < |reports| && id in reports[j].given && AllMarked(reports, map[])[id] == reports[j].shard
              && forall m | j < m < |reports| :: id !in reports[m].given
    ensures id !in AllMarked(reports, map[]) ==> forall m | 0 <= m < |reports| :: id !in reports[m].given
    decreases |reports|
  {
    j := 0;
    if reports != [] {
      var n := |reports| - 1;
      j := MarkIsLast(reports[..n], id);
      MarkedMore(reports, map[]);
      MarkedIs(reports[n].given, reports[n].shard, AllMarked(reports[..n], map[]));
      hide Marked, AllMarked;
      if id in reports[n].given {
        j := n;
      }
    }
  }

  lemma TwiceExactly(reports: seq<Report>, discovered: set<string>, p: Problem)
    requires p.AssignedTwice?
    ensures (exists k :: DueAmong(reports, discovered, p, k)) <==> Due(reports, p)
  {
    hide AllMarked;
    if k :| DueAmong(reports, discovered, p, k) {
      var j := MarkIsLast(reports[..k], p.id);
      assert Reassigned(reports, j, k, p.id) by {
        assert forall m | 0 <= m < k :: reports[..k][m] == reports[m];
      }
    }
    if j, k :| Reassigned(reports, j, k, p.id) && reports[j].shard == p.first && reports[k].shard == p.second {
      var m := MarkIsLast(reports[..k], p.id);
      assert reports[..k][j] == reports[j];
      assert m == j;
      assert DueAmong(reports, discovered, p, k);
    }
  }

  lemma EachExactly(reports: seq<Report>, p: Problem)
    requires reports != [] && !p.AssignedTwice? && (p.DifferentSuite? || p.RanOther? || p.Unsuccessful? || p.SkippedInCi?)
    ensures (exists k :: DueAmong(reports, Ids(reports[0].discovered), p, k)) <==> Due(reports, p)
  {
    hide AllMarked, Contains, Mentions;
    var discovered := Ids(reports[0].discovered);
    if p.SkippedInCi? {
      ContainsIs(p.reason);
    }
    if k :| DueAmong(reports, discovered, p, k) {
      if p.DifferentSuite? {
        DifferentIds(reports[k].discovered, reports[0].discovered);
      }
      assert Due(reports, p);
    }
    if Due(reports, p) {
      var k := DueWhere(reports, p);
      assert DueAmong(reports, discovered, p, k);
    }
  }

  lemma DueWhere(reports: seq<Report>, p: Problem) returns (k: nat)
    requires reports != [] && Due(reports, p) && (p.DifferentSuite? || p.RanOther? || p.Unsuccessful? || p.SkippedInCi?)
    ensures k < |reports| && forall seen :: DueOf(reports[k], Ids(reports[0].discovered), seen, p)
  {
    hide Contains, Mentions;
    match p
    case DifferentSuite(shard) =>
      var j, id :| 0 <= j < |reports| && reports[j].shard == shard
                   && (id in reports[j].discovered <==> id !in reports[0].discovered);
      assert id in Ids(reports[j].discovered) <==> id !in Ids(reports[0].discovered);
      k := j;
    case RanOther(shard, ran, of) =>
      k :| 0 <= k < |reports| && reports[k].shard == shard && reports[k].testsRun == ran
           && |reports[k].given| == of && ran != of;
    case Unsuccessful(shard, failures, errors, unexpected) =>
      k :| 0 <= k < |reports| && reports[k].shard == shard && reports[k].failures == failures
           && reports[k].errors == errors && reports[k].unexpected == unexpected && !reports[k].successful;
    case SkippedInCi(id, reason) =>
      ContainsIs(reason);
      k :| 0 <= k < |reports| && (id, reason) in reports[k].skipped && !Mentions(reason);
  }

  lemma DifferentIds(a: seq<string>, b: seq<string>)
    requires Ids(a) != Ids(b)
    ensures exists id :: id in a <==> id !in b
  {
    var id :| id in Ids(a) <==> id !in Ids(b);
    assert id in a <==> id !in b;
  }

  lemma {:induction false} NamesAre(reports: seq<Report>)
    ensures Names(reports) == seq(|reports|, k requires 0 <= k < |reports| => reports[k].shard)
    decreases |reports|
  {
    if reports != [] {
      NamesAre(reports[1..]);
    }
  }

  lemma MissingExactly(reports: seq<Report>, p: Problem)
    requires p.Missing? && reports != []
    ensures p in MissingProblems(Ids(reports[0].discovered) - AllMarked(reports, map[]).Keys) <==> Due(reports, p)
  {
    var missing := Ids(reports[0].discovered) - AllMarked(reports, map[]).Keys;
    forall id ensures id in missing <==> id in reports[0].discovered && forall k | 0 <= k < |reports| :: id !in reports[k].given {
      AllMarkedIs(reports, map[], id);
      assert id in Ids(reports[0].discovered) <==> id in reports[0].discovered;
    }
    hide AllMarked, Ids;
    if Due(reports, p) {
      assert forall id :: id in p.ids <==> id in missing;
      assert p.ids == missing;
    }
  }

  lemma NoneDiscoveredExactly(reports: seq<Report>)
    requires reports != []
    ensures Ids(reports[0].discovered) == {} <==> reports[0].discovered == []
  {
    if reports[0].discovered != [] {
      assert reports[0].discovered[0] in Ids(reports[0].discovered);
    }
  }

  /** The check reports a problem exactly when it is due. */
  lemma {:induction false} ProblemsExactly(reports: seq<Report>, p: Problem)
    ensures p in Problems(reports) <==> Due(reports, p)
  {
    hide Due, AllMarked, Ids, Names, DueAmong, AllProblems;
    if reports == [] {
      NoReportsExactly(p);
    } else {
      var discovered := Ids(reports[0].discovered);
      AllProblemsExactly(reports, discovered, p);
      if p.AssignedTwice? {
        TwiceExactly(reports, discovered, p);
      } else if p.DifferentSuite? || p.RanOther? || p.Unsuccessful? || p.SkippedInCi? {
        EachExactly(reports, p);
      } else {
        OnlyReportsOwn(reports, discovered, p);
        if p.Missing? {
          MissingExactly(reports, p);
        } else {
          SuiteExactly(reports, p);
        }
      }
    }
  }

  lemma NoReportsExactly(p: Problem)
    ensures p in Problems([]) <==> Due([], p)
  {
    SuiteNames([]);
    assert Names([]) == [];
    assert multiset(SHARDS)["core"] == 1 by { assert "core"[0] != "heavy"[0]; }
    hide Mentions;
  }

  lemma SuiteNames(reports: seq<Report>)
    ensures multiset(Names(reports)) == multiset(seq(|reports|, k requires 0 <= k < |reports| => reports[k].shard))
    ensures multiset(SHARDS) == multiset{"core", "heavy"}
  {
    NamesAre(reports);
  }

  lemma SuiteExactly(reports: seq<Report>, p: Problem)
    requires reports != [] && (p.WrongShards? || p.NothingDiscovered?)
    ensures p in ShardProblems(reports) + NoneDiscovered(Ids(reports[0].discovered)) <==> Due(reports, p)
  {
    SuiteNames(reports);
    NoneDiscoveredExactly(reports);
    hide Names, Ids;
  }

  lemma OnlyReportsOwn(reports: seq<Report>, discovered: set<string>, p: Problem)
    requires p.WrongShards? || p.NothingDiscovered? || p.Missing?
    ensures forall k :: !DueAmong(reports, discovered, p, k)
  {
  }
}
