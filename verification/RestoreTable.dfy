/**
 * The table of a restore drill: what it makes of each object, read off the bucket, the
 * download, the copy of the ledger and the restored files; and where the object then stands
 * in the report.
 */
module RestoreTable {
  import opened Wrappers
  import opened Framing
  import opened Ledger
  import opened PartitionTar
  import opened CaptureArchive
  import opened Receipts
  import opened Restore
  import ObjectName

  // ---- One object ----------------------------------------------------------

  predicate IsNamed(name: string) {
    ObjectName.Parse(name).Ok?
  }

  /** The object's bytes have arrived. */
  predicate Arrived(objects: map<string, Bytes>, name: string, download: Download) {
    IsNamed(name) && name in objects && download.Arrives?
  }

  /** And nothing the copy of the ledger says speaks against them. */
  predicate Matches(a: Authority, objects: map<string, Bytes>, ledger: Option<map<string, Entry>>, name: string,
                    download: Download) {
    && Arrived(objects, name, download)
    && (ledger.None? || (name in ledger.value && ledger.value[name].tarSha == a.sha(objects[name])))
  }

  function Target(name: string): string
    requires IsNamed(name)
  {
    var (rootLabel, relative) := ObjectName.Parse(name).value;
    rootLabel + "/" + relative
  }

  /** The files it yields, written where nothing was. */
  function Yield(a: Authority, objects: map<string, Bytes>, ledger: Option<map<string, Entry>>, tree: Tree, name: string,
                 download: Download): Option<Files>
  {
    if Matches(a, objects, ledger, name, download) && Target(name) !in tree then
      match Extract(objects[name], ObjectName.Parse(name).value.1)
      case Ok(files) => Some(files)
      case Err(_) => None
    else None
  }

  predicate HasReplayed(a: Authority, files: Files) {
    a.complete(files) == Some(true) && a.replay(files).ReplaysWhole?
  }

  function Place(a: Authority, name: string, files: Files): Option<PathError>
    requires IsNamed(name)
  {
    CanonicalPathError(a, files, ObjectName.Parse(name).value.0, ObjectName.Parse(name).value.1)
  }

  /** When an object has this outcome. */
  predicate Row(o: DrillOutcome, a: Authority, objects: map<string, Bytes>, ledger: Option<map<string, Entry>>,
                tree: Tree, name: string, download: Download) {
    var files := Yield(a, objects, ledger, tree, name, download);
    match o
    case Verified(r) =>
      && files.Some? && HasReplayed(a, files.value) && Place(a, name, files.value).None?
      && ManifestOf(a, files.value).Some?
      && r == Restored(name, a.sha(objects[name]), ManifestOf(a, files.value).value.contentHash,
                       a.replay(files.value).records, ledger.Some?)
    case Raised =>
      && IsNamed(name)
      && (|| download.BreaksOff?
          || (files.Some? && a.complete(files.value).None?)
          || (files.Some? && a.complete(files.value) == Some(true) && a.replay(files.value).ReplayRaises?))
    case NotVerified(BadObjectName(e)) => ObjectName.Parse(name) == Err(e)
    case NotVerified(GetFailed) =>
      IsNamed(name) && (download.GetFails? || (download.Arrives? && name !in objects))
    case NotVerified(NotInTheBackupLedger) =>
      Arrived(objects, name, download) && ledger.Some? && name !in ledger.value
    case NotVerified(BytesDifferFromTheLedger) =>
      && Arrived(objects, name, download) && ledger.Some? && name in ledger.value
      && ledger.value[name].tarSha != a.sha(objects[name])
    case NotVerified(Unextractable(e)) =>
      && Matches(a, objects, ledger, name, download)
      && if Target(name) in tree then e == TargetExists else Extract(objects[name], ObjectName.Parse(name).value.1) == Err(e)
    case NotVerified(NotComplete) =>
      files.Some? && a.complete(files.value) == Some(false)
    case NotVerified(DoesNotReplay) =>
      files.Some? && a.complete(files.value) == Some(true) && a.replay(files.value).RefusesToReplay?
    case NotVerified(Misplaced(e)) =>
      files.Some? && HasReplayed(a, files.value) && Place(a, name, files.value) == Some(e)
  }

  lemma PlacedHasManifest(a: Authority, name: string, files: Files)
    requires IsNamed(name) && Place(a, name, files).None?
    ensures ManifestOf(a, files).Some?
  {
    hide ObjectName.Parse;
  }

  /**
   * The table of one object: it has an outcome exactly when it meets that row, for every
   * outcome there is; and its files are written exactly when it yields them.
   */
  lemma {:induction false} DrillTable(a: Authority, objects: map<string, Bytes>, ledger: Option<map<string, Entry>>,
                                      tree: Tree, name: string, download: Download, o: DrillOutcome)
    ensures var (outcome, after) := Drill(a, objects, ledger, tree, name, download);
      && (outcome == o <==> Row(o, a, objects, ledger, tree, name, download))
      && after == match Yield(a, objects, ledger, tree, name, download)
                  case None => tree
                  case Some(files) => tree[Target(name) := files]
  {
    hide ObjectName.Parse, CanonicalPathError, Extract, ManifestOf;
    var files := Yield(a, objects, ledger, tree, name, download);
    if files.Some? && Place(a, name, files.value).None? {
      PlacedHasManifest(a, name, files.value);
    }
  }

  // ---- A whole drill -------------------------------------------------------

  ghost predicate NamesDiffer(names: seq<string>) {
    forall i, j | 0 <= i < j < |names| :: names[i] != names[j]
  }

  /** Whatever is restored so far stands where one of the names says. */
  lemma {:induction false} TreeFromNames(a: Authority, objects: map<string, Bytes>, ledger: Option<map<string, Entry>>,
                                         names: seq<string>, net: nat -> Download, t: string)
    requires t in DrillAll(a, objects, ledger, names, net).tree
    ensures t + ObjectName.SUFFIX in names
  {
    hide ObjectName.Parse, Drill, Extract;
    if names != [] {
      var front, name := names[..|names| - 1], names[|names| - 1];
      var d := DrillAll(a, objects, ledger, front, net);
      if t in d.tree {
        TreeFromNames(a, objects, ledger, front, net, t);
        assert t + ObjectName.SUFFIX in front;
        assert forall k | 0 <= k < |front| :: names[k] == front[k];
      } else {
        DrillTable(a, objects, ledger, d.tree, name, net(|front|), Raised);
        TargetNames(name);
        assert t == Target(name);
      }
    }
  }

  /** Among distinct names no target is taken: an object's outcome rests on it alone. */
  lemma OutcomeAlone(a: Authority, objects: map<string, Bytes>, ledger: Option<map<string, Entry>>, names: seq<string>,
                     net: nat -> Download, o: DrillOutcome)
    requires names != [] && NamesDiffer(names)
    ensures var d := DrillAll(a, objects, ledger, names[..|names| - 1], net);
      var name, download := names[|names| - 1], net(|names| - 1);
      Drill(a, objects, ledger, d.tree, name, download).0 == o <==> Row(o, a, objects, ledger, map[], name, download)
  {
    hide ObjectName.Parse, Drill, Extract, CanonicalPathError, DrillAll;
    var front, name := names[..|names| - 1], names[|names| - 1];
    var d := DrillAll(a, objects, ledger, front, net);
    DrillTable(a, objects, ledger, d.tree, name, net(|front|), o);
    assert forall k | 0 <= k < |front| :: front[k] == names[k] != name;
    if IsNamed(name) {
      TargetNames(name);
      if Target(name) in d.tree {
        TreeFromNames(a, objects, ledger, front, net, Target(name));
      }
    }
  }

  /** The `i`-th object has this outcome, by its own row. */
  predicate MeetsRow(a: Authority, objects: map<string, Bytes>, ledger: Option<map<string, Entry>>, names: seq<string>,
                     net: nat -> Download, i: nat, o: DrillOutcome) {
    i < |names| && Row(o, a, objects, ledger, map[], names[i], net(i))
  }

  /** What was restored, in order. */
  function VerifiedIn(outcomes: seq<DrillOutcome>): seq<Restored> {
    if outcomes == [] then []
    else
      var last := outcomes[|outcomes| - 1];
      VerifiedIn(outcomes[..|outcomes| - 1]) + if last.Verified? then [last.restored] else []
  }

  /** What was not, in order, and why. */
  function FailuresIn(names: seq<string>, outcomes: seq<DrillOutcome>): seq<(string, RestoreError)>
    requires |names| == |outcomes|
  {
    if outcomes == [] then []
    else
      var n := |outcomes| - 1;
      FailuresIn(names[..n], outcomes[..n]) + if outcomes[n].NotVerified? then [(names[n], outcomes[n].error)] else []
  }

  /** Every object has exactly the outcome of the row it meets. */
  ghost predicate AreOutcomes(a: Authority, objects: map<string, Bytes>, ledger: Option<map<string, Entry>>,
                              names: seq<string>, net: nat -> Download, outcomes: seq<DrillOutcome>) {
    && |outcomes| == |names|
    && forall i: nat, o | i < |names| :: MeetsRow(a, objects, ledger, names, net, i, o) <==> outcomes[i] == o
  }

  /**
   * The report of a drill over distinct names: each object has one outcome, that of the row
   * it meets; the verified list holds exactly the verified ones, in order and as restored;
   * the failures are exactly the others, in order, each with the first check it missed.
   */
  lemma {:induction false} DrillReportTable(a: Authority, objects: map<string, Bytes>,
        ledger: Option<map<string, Entry>>, names: seq<string>, net: nat -> Download)
    returns (outcomes: seq<DrillOutcome>)
    requires NamesDiffer(names) && !DrillAll(a, objects, ledger, names, net).raised
    ensures AreOutcomes(a, objects, ledger, names, net, outcomes)
    ensures DrillAll(a, objects, ledger, names, net).report == DrillReport(VerifiedIn(outcomes), FailuresIn(names, outcomes))
  {
    hide Drill, Row, MeetsRow;
    if names == [] {
      outcomes := [];
    } else {
      var n := |names| - 1;
      var before := DrillReportTable(a, objects, ledger, names[..n], net);
      var d := DrillAll(a, objects, ledger, names[..n], net);
      var outcome := Drill(a, objects, ledger, d.tree, names[n], net(n)).0;
      outcomes := before + [outcome];
      assert outcomes[..n] == before;
      OutcomesNext(a, objects, ledger, names, net, before, outcome);
    }
  }

  lemma OutcomesNext(a: Authority, objects: map<string, Bytes>, ledger: Option<map<string, Entry>>, names: seq<string>,
                     net: nat -> Download, before: seq<DrillOutcome>, outcome: DrillOutcome)
    requires names != [] && NamesDiffer(names)
    requires AreOutcomes(a, objects, ledger, names[..|names| - 1], net, before)
    requires outcome == Drill(a, objects, ledger, DrillAll(a, objects, ledger, names[..|names| - 1], net).tree,
                              names[|names| - 1], net(|names| - 1)).0
    ensures AreOutcomes(a, objects, ledger, names, net, before + [outcome])
  {
    hide Drill, Row, DrillAll;
    var n := |names| - 1;
    forall i: nat, o | i < |names|
      ensures MeetsRow(a, objects, ledger, names, net, i, o) <==> (before + [outcome])[i] == o {
      if i < n {
        assert MeetsRow(a, objects, ledger, names, net, i, o) <==> MeetsRow(a, objects, ledger, names[..n], net, i, o);
      } else {
        OutcomeAlone(a, objects, ledger, names, net, o);
      }
    }
  }
}
