/**
 * The restore drill on another host: download, check against a copy of the ledger,
 * extract into an empty root, replay, and state what was restored.
 */
module Restore {
  import opened Wrappers
  import opened Framing
  import opened Ledger
  import opened PartitionTar
  import opened CaptureArchive
  import opened Receipts
  import ObjectName
  import Text

  datatype RestoreError =
    | BadObjectName(nameError: ObjectName.NameError)
    | GetFailed
    | NotInTheBackupLedger
    | BytesDifferFromTheLedger
    | Unextractable(extractError: ExtractError)
    | NotComplete
    | DoesNotReplay
    | Misplaced(pathError: PathError)

  /** Restored partitions by `<label>/<relative>`. */
  type Tree = map<string, Files>

  function TargetOf(rootLabel: string, relative: string): string {
    rootLabel + "/" + relative
  }

  // ---- Extraction under the restore root -----------------------------------

  function ExtractInto(tree: Tree, body: Bytes, name: string): Result<(string, Files), ExtractError> {
    match ObjectName.Parse(name)
    case Err(_) => Err(BadName)
    case Ok((rootLabel, relative)) =>
      if TargetOf(rootLabel, relative) in tree then Err(TargetExists)
      else
        var files :- Extract(body, relative);
        Ok((TargetOf(rootLabel, relative), files))
  }

  /** One pass over the members, gathering files by base name. */
  method CollectMembers(ms: seq<Member>, relative: string) returns (r: Result<Files, ExtractError>)
    ensures r == Collect(ms, relative)
  {
    hide Text.CutLast;
    var files: Files := map[];
    for i := 0 to |ms|
      invariant Collect(ms[..i], relative) == Ok(files)
    {
      assert ms[..i + 1][..i] == ms[..i];
      var (folder, base) := Text.CutLast(ms[i].name, '/');
      if !ms[i].isRegular || folder != relative || base !in PARTITION_FILES || base in files {
        CollectFailsEarly(ms, relative, i + 1);
        return Err(MemberOutsideItsPartition);
      }
      files := files[base := ms[i].data];
    }
    assert ms[..|ms|] == ms;
    return Ok(files);
  }

  class RestoreRoot {
    var tree: Tree

    constructor ()
      ensures tree == map[]
    {
      tree := map[];
    }

    /** `extract_partition`: all five files are written, or none. */
    method ExtractPartition(body: Bytes, name: string) returns (r: Result<Files, ExtractError>)
      modifies this
      ensures match ExtractInto(old(tree), body, name)
        case Err(e) => r == Err(e) && tree == old(tree)
        case Ok((target, files)) => r == Ok(files) && tree == old(tree)[target := files]
    {
      hide ObjectName.Parse, ReadArchive, Collect;
      var parsed := ObjectName.ParseObjectName(name);
      if parsed.Err? {
        return Err(BadName);
      }
      var (rootLabel, relative) := parsed.value;
      var target := rootLabel + "/" + relative;
      if target in tree {
        return Err(TargetExists);
      }
      var archive := ReadArchive(body);
      if archive.None? {
        return Err(NotAnArchive);
      }
      var collected := CollectMembers(archive.value, relative);
      if collected.Err? {
        return Err(collected.error);
      }
      var files := collected.value;
      if files.Keys != PARTITION_FILES {
        return Err(NotExactlyOnePartition);
      }
      tree := tree[target := files];
      return Ok(files);
    }
  }

  lemma {:induction false} CollectFailsEarly(ms: seq<Member>, relative: string, i: nat)
    requires i <= |ms| && Collect(ms[..i], relative).Err?
    ensures Collect(ms, relative) == Collect(ms[..i], relative)
    decreases |ms|
  {
    if i < |ms| {
      assert ms[..|ms| - 1][..i] == ms[..i];
      CollectFailsEarly(ms[..|ms| - 1], relative, i);
    } else {
      assert ms[..i] == ms;
    }
  }

  // ---- One object ----------------------------------------------------------

  /** How a download goes: the bytes arrive, it fails, or it breaks off with an error nobody catches. */
  datatype Download = Arrives | GetFails | BreaksOff

  /** What a drill makes of one object; an error that is not caught ends the whole drill. */
  datatype DrillOutcome = Verified(restored: Restored) | NotVerified(error: RestoreError) | Raised

  /** Checks made before anything is written: the name, the download, the copy of the ledger. */
  function Fetch(a: Authority, objects: map<string, Bytes>, ledger: Option<map<string, Entry>>, name: string,
                 download: Download)
    : Result<Bytes, RestoreError>
  {
    match ObjectName.Parse(name)
    case Err(e) => Err(BadObjectName(e))
    case Ok(_) =>
      if name !in objects || !download.Arrives? then Err(GetFailed)
      else if ledger.None? then Ok(objects[name])
      else if name !in ledger.value then Err(NotInTheBackupLedger)
      else if ledger.value[name].tarSha != a.sha(objects[name]) then Err(BytesDifferFromTheLedger)
      else Ok(objects[name])
  }

  /** Checks of the extracted files: complete, replays in full, sits where its own identity says. */
  function Prove(a: Authority, files: Files, name: string, digest: string, checked: bool): DrillOutcome {
    match ObjectName.Parse(name)
    case Err(e) => NotVerified(BadObjectName(e))
    case Ok((rootLabel, relative)) =>
      match a.complete(files)
      case None => Raised
      case Some(complete) =>
        if !complete then NotVerified(NotComplete)
        else
          match a.replay(files)
          case RefusesToReplay => NotVerified(DoesNotReplay)
          case ReplayRaises => Raised
          case ReplaysWhole(records) =>
            match CanonicalPathError(a, files, rootLabel, relative)
            case Some(e) => NotVerified(Misplaced(e))
            case None =>
              match ManifestOf(a, files)
              case None => NotVerified(Misplaced(IdentityUnreadable))
              case Some(m) => Verified(Restored(name, digest, m.contentHash, records, checked))
  }

  /** The outcome for one object, and the restored tree it leaves. */
  function Drill(a: Authority, objects: map<string, Bytes>, ledger: Option<map<string, Entry>>, tree: Tree,
                 name: string, download: Download)
    : (DrillOutcome, Tree)
  {
    if ObjectName.Parse(name).Ok? && download.BreaksOff? then (Raised, tree)
    else
      match Fetch(a, objects, ledger, name, download)
      case Err(e) => (NotVerified(e), tree)
      case Ok(body) =>
        match ExtractInto(tree, body, name)
        case Err(e) => (NotVerified(Unextractable(e)), tree)
        case Ok((target, files)) => (Prove(a, files, name, a.sha(body), ledger.Some?), tree[target := files])
  }

  datatype DrillReport = DrillReport(verified: seq<Restored>, failures: seq<(string, RestoreError)>)

  /** A drill so far; once raised, it has ended without a report. */
  datatype Drilled = Drilled(report: DrillReport, tree: Tree, raised: bool)

  function DrillAll(a: Authority, objects: map<string, Bytes>, ledger: Option<map<string, Entry>>, names: seq<string>,
                    net: nat -> Download): Drilled
  {
    if names == [] then Drilled(DrillReport([], []), map[], false)
    else
      var d := DrillAll(a, objects, ledger, names[..|names| - 1], net);
      if d.raised then d
      else
        var name := names[|names| - 1];
        var (outcome, tree) := Drill(a, objects, ledger, d.tree, name, net(|names| - 1));
        match outcome
        case Verified(restored) => Drilled(d.report.(verified := d.report.verified + [restored]), tree, false)
        case NotVerified(e) => Drilled(d.report.(failures := d.report.failures + [(name, e)]), tree, false)
        case Raised => Drilled(d.report, tree, true)
  }

  /** `names[-limit:]`: a limit of 0 keeps every name, as the slice `names[-0:]` does. */
  function LastNames(names: seq<string>, limit: Option<int>): seq<string> {
    match limit
    case None => names
    case Some(n) =>
      if n > |names| then names
      else if n > 0 then names[|names| - n..]
      else if -n < |names| then names[-n..]
      else []
  }

  datatype DrillFailure = DestinationNotEmpty | UncaughtError

  /** `run_restore_verify` */
  method RunRestoreVerify(a: Authority, objects: map<string, Bytes>, listed: seq<string>, limit: Option<int>,
                          ledger: Option<map<string, Entry>>, net: nat -> Download, root: RestoreRoot)
    returns (r: Result<DrillReport, DrillFailure>)
    modifies root
    ensures old(root.tree) != map[] ==> r == Err(DestinationNotEmpty) && root.tree == old(root.tree)
    ensures old(root.tree) == map[] ==>
              var d := DrillAll(a, objects, ledger, LastNames(listed, limit), net);
              root.tree == d.tree && r == if d.raised then Err(UncaughtError) else Ok(d.report)
  {
    hide Extract, CanonicalPathError, ObjectName.Parse, Drill;
    if root.tree != map[] {
      return Err(DestinationNotEmpty);
    }
    var names := LastNames(listed, limit);
    var verified: seq<Restored>, failures: seq<(string, RestoreError)> := [], [];
    for i := 0 to |names|
      invariant DrillAll(a, objects, ledger, names[..i], net) == Drilled(DrillReport(verified, failures), root.tree, false)
    {
      assert names[..i + 1][..i] == names[..i];
      var name := names[i];
      var outcome := DrillOne(a, objects, ledger, root, name, net(i));
      match outcome {
        case Verified(restored) => verified := verified + [restored];
        case NotVerified(e) => failures := failures + [(name, e)];
        case Raised =>
          DrillStops(a, objects, ledger, names, net, i + 1);
          return Err(UncaughtError);
      }
    }
    assert names[..|names|] == names;
    return Ok(DrillReport(verified, failures));
  }

  /** Behind the object that ends a drill nothing is looked at. */
  lemma {:induction false} DrillStops(a: Authority, objects: map<string, Bytes>, ledger: Option<map<string, Entry>>,
                                      names: seq<string>, net: nat -> Download, k: nat)
    requires k <= |names| && DrillAll(a, objects, ledger, names[..k], net).raised
    ensures DrillAll(a, objects, ledger, names, net) == DrillAll(a, objects, ledger, names[..k], net)
    decreases |names|
  {
    hide Drill;
    if k < |names| {
      assert names[..|names| - 1][..k] == names[..k];
      DrillStops(a, objects, ledger, names[..|names| - 1], net, k);
    } else {
      assert names[..k] == names;
    }
  }

  /** The body of the loop over objects. */
  method DrillOne(a: Authority, objects: map<string, Bytes>, ledger: Option<map<string, Entry>>, root: RestoreRoot,
                  name: string, download: Download)
    returns (outcome: DrillOutcome)
    modifies root
    ensures (outcome, root.tree) == Drill(a, objects, ledger, old(root.tree), name, download)
  {
    hide Extract, CanonicalPathError, ObjectName.Parse;
    var parsed := ObjectName.ParseObjectName(name);
    if parsed.Err? {
      return NotVerified(BadObjectName(parsed.error));
    }
    if download.BreaksOff? {
      return Raised;
    }
    if name !in objects || download.GetFails? {
      return NotVerified(GetFailed);
    }
    var body := objects[name];
    var digest := a.sha(body);
    if ledger.Some? {
      if name !in ledger.value {
        return NotVerified(NotInTheBackupLedger);
      }
      if ledger.value[name].tarSha != digest {
        return NotVerified(BytesDifferFromTheLedger);
      }
    }
    var extracted := root.ExtractPartition(body, name);
    if extracted.Err? {
      return NotVerified(Unextractable(extracted.error));
    }
    outcome := Prove(a, extracted.value, name, digest, ledger.Some?);
  }

  // ---- What a verified object proves ---------------------------------------

  /** The object was downloaded, its bytes extract to exactly five files, and these prove themselves. */
  ghost predicate Proven(a: Authority, objects: map<string, Bytes>, ledger: Option<map<string, Entry>>, r: Restored,
                         tree: Tree) {
    && r.name in objects
    && r.tarSha == a.sha(objects[r.name])
    && r.ledgerMatch == ledger.Some?
    && (ledger.Some? ==> r.name in ledger.value && ledger.value[r.name].tarSha == r.tarSha)
    && ObjectName.Parse(r.name).Ok?
    && var (rootLabel, relative) := ObjectName.Parse(r.name).value;
       && TargetOf(rootLabel, relative) in tree
       && var files := tree[TargetOf(rootLabel, relative)];
          && Extract(objects[r.name], relative) == Ok(files)
          && files.Keys == PARTITION_FILES
          && IsComplete(a, files)
          && a.replay(files) == ReplaysWhole(r.records)
          && CanonicalPathError(a, files, rootLabel, relative).None?
  }

  lemma DrillProves(a: Authority, objects: map<string, Bytes>, ledger: Option<map<string, Entry>>, tree: Tree,
                    name: string, download: Download)
    ensures var (outcome, tree') := Drill(a, objects, ledger, tree, name, download);
      && (outcome.Verified? ==> outcome.restored.name == name && Proven(a, objects, ledger, outcome.restored, tree'))
      && (forall t | t in tree :: t in tree' && tree'[t] == tree[t])
      && (forall t | t in tree' && t !in tree :: tree'[t].Keys == PARTITION_FILES)
  {
    hide ObjectName.Parse, CanonicalPathError, Collect, ReadArchive;
  }

  /**
   * Everything a drill takes as verified is proven by what it left on disk, whether it comes
   * to a report or not; and a report lists each name once, verified or failed.
   */
  lemma {:induction false} DrillSound(a: Authority, objects: map<string, Bytes>, ledger: Option<map<string, Entry>>,
                                      names: seq<string>, net: nat -> Download)
    ensures var d := DrillAll(a, objects, ledger, names, net); var report := d.report;
      && (!d.raised ==> |report.verified| + |report.failures| == |names|)
      && (forall i | 0 <= i < |report.verified| ::
            report.verified[i].name in names && Proven(a, objects, ledger, report.verified[i], d.tree))
      && (forall t | t in d.tree :: d.tree[t].Keys == PARTITION_FILES)
  {
    hide Drill, Proven;
    if names != [] {
      DrillSound(a, objects, ledger, names[..|names| - 1], net);
      var d := DrillAll(a, objects, ledger, names[..|names| - 1], net);
      DrillProves(a, objects, ledger, d.tree, names[|names| - 1], net(|names| - 1));
      var tree' := Drill(a, objects, ledger, d.tree, names[|names| - 1], net(|names| - 1)).1;
      forall i | 0 <= i < |d.report.verified| ensures Proven(a, objects, ledger, d.report.verified[i], tree') {
        StaysProven(a, objects, ledger, d.report.verified[i], d.tree, tree');
      }
    }
  }

  lemma StaysProven(a: Authority, objects: map<string, Bytes>, ledger: Option<map<string, Entry>>, r: Restored,
                    tree: Tree, tree': Tree)
    requires Proven(a, objects, ledger, r, tree) && forall t | t in tree :: t in tree' && tree'[t] == tree[t]
    ensures Proven(a, objects, ledger, r, tree')
  {
    hide ObjectName.Parse, CanonicalPathError, Extract;
  }

  // ---- When a drill reports ------------------------------------------------

  /** The status read of these files raises, or finds them complete and their replay raises. */
  predicate ProofRaises(a: Authority, files: Files) {
    a.complete(files).None? || (IsComplete(a, files) && a.replay(files).ReplayRaises?)
  }

  /** An object no drill gets past: its download breaks off, or its files are taken and their proof raises. */
  predicate EndsDrill(a: Authority, objects: map<string, Bytes>, ledger: Option<map<string, Entry>>, name: string,
                      download: Download) {
    && ObjectName.Parse(name).Ok?
    && (|| download.BreaksOff?
        || (&& Fetch(a, objects, ledger, name, download).Ok?
            && var files := Extract(objects[name], ObjectName.Parse(name).value.1);
               files.Ok? && ProofRaises(a, files.value)))
  }

  /** What is restored so far comes from the objects its places name, and its proofs went through. */
  ghost predicate Quiet(a: Authority, objects: map<string, Bytes>, tree: Tree) {
    forall t | t in tree ::
      && t + ObjectName.SUFFIX in objects && ObjectName.Parse(t + ObjectName.SUFFIX).Ok?
      && Extract(objects[t + ObjectName.SUFFIX], ObjectName.Parse(t + ObjectName.SUFFIX).value.1) == Ok(tree[t])
      && !ProofRaises(a, tree[t])
  }

  lemma TargetNames(name: string)
    requires ObjectName.Parse(name).Ok?
    ensures var (rootLabel, relative) := ObjectName.Parse(name).value; TargetOf(rootLabel, relative) + ObjectName.SUFFIX == name
  {
    hide ObjectName.Parse;
    ObjectName.PrintParsed(name);
  }

  /** One object ends the drill exactly when it is such a one. */
  lemma DrillRaises(a: Authority, objects: map<string, Bytes>, ledger: Option<map<string, Entry>>, tree: Tree,
                    name: string, download: Download)
    requires Quiet(a, objects, tree)
    ensures var (outcome, tree') := Drill(a, objects, ledger, tree, name, download);
      && (outcome.Raised? <==> EndsDrill(a, objects, ledger, name, download))
      && (!outcome.Raised? ==> Quiet(a, objects, tree'))
  {
    hide ObjectName.Parse, CanonicalPathError, Extract;
    if ObjectName.Parse(name).Ok? {
      TargetNames(name);
    }
  }

  predicate EndsDrillAt(a: Authority, objects: map<string, Bytes>, ledger: Option<map<string, Entry>>,
                        names: seq<string>, net: nat -> Download, i: nat) {
    i < |names| && EndsDrill(a, objects, ledger, names[i], net(i))
  }

  /** A drill comes to a report exactly when none of its objects is one it does not get past. */
  lemma {:induction false} DrillReportsExactly(a: Authority, objects: map<string, Bytes>,
        ledger: Option<map<string, Entry>>, names: seq<string>, net: nat -> Download)
    ensures var d := DrillAll(a, objects, ledger, names, net);
      && (!d.raised <==> forall i: nat | i < |names| :: !EndsDrillAt(a, objects, ledger, names, net, i))
      && (!d.raised ==> Quiet(a, objects, d.tree))
    decreases |names|
  {
    hide Drill, EndsDrill, Quiet;
    if names == [] {
      NothingRestored(a, objects);
    } else {
      var n := |names| - 1;
      DrillReportsExactly(a, objects, ledger, names[..n], net);
      assert forall i: nat | i < n ::
        EndsDrillAt(a, objects, ledger, names[..n], net, i) == EndsDrillAt(a, objects, ledger, names, net, i);
      var d := DrillAll(a, objects, ledger, names[..n], net);
      if d.raised {
        var i: nat :| i < n && EndsDrillAt(a, objects, ledger, names[..n], net, i);
        assert EndsDrillAt(a, objects, ledger, names, net, i);
      } else {
        DrillRaises(a, objects, ledger, d.tree, names[n], net(n));
        var e := DrillAll(a, objects, ledger, names, net);
        assert e.raised <==> Drill(a, objects, ledger, d.tree, names[n], net(n)).0.Raised?;
        assert e.raised <==> EndsDrillAt(a, objects, ledger, names, net, n);
        assert !e.raised ==> Quiet(a, objects, e.tree);
      }
    }
  }

  lemma NothingRestored(a: Authority, objects: map<string, Bytes>)
    ensures Quiet(a, objects, map[])
  {
  }

  /** One object whose files make the status read raise: the drill ends at it, and what is behind it is never fetched. */
  lemma {:induction false} RaisingObjectEndsDrill(a: Authority, objects: map<string, Bytes>, name: string,
        behind: string, files: Files, net: nat -> Download)
    requires ObjectName.Parse(name).Ok? && name in objects && net(0).Arrives?
    requires Extract(objects[name], ObjectName.Parse(name).value.1) == Ok(files) && a.complete(files).None?
    ensures var d := DrillAll(a, objects, None, [name, behind], net);
      d.raised && d.report == DrillReport([], [])
  {
    hide ObjectName.Parse, Extract, Drill;
    NothingRestored(a, objects);
    DrillRaises(a, objects, None, map[], name, net(0));
    assert [name][..0] == [] && [name, behind][..1] == [name];
    assert DrillAll(a, objects, None, [], net) == Drilled(DrillReport([], []), map[], false);
    assert DrillAll(a, objects, None, [name], net).raised;
  }

  // ---- The limit -----------------------------------------------------------

  /**
   * A drill with a limit goes over the last so many names, and so over no more than the limit
   * says, exactly when that is not 0 (or nothing is there): with a limit of 0 it goes over all.
   * If it comes to a report, it reports on each of them.
   */
  lemma {:induction false} LimitExactly(a: Authority, objects: map<string, Bytes>, listed: seq<string>, limit: nat,
                                        ledger: Option<map<string, Entry>>, net: nat -> Download)
    ensures var names := LastNames(listed, Some(limit)); var d := DrillAll(a, objects, ledger, names, net);
      && names == listed[|listed| - |names|..]
      && |names| == (if limit == 0 || limit > |listed| then |listed| else limit)
      && (|names| <= limit <==> limit > 0 || listed == [])
      && (!d.raised ==> |d.report.verified| + |d.report.failures| == |names|)
  {
    hide DrillAll, Proven;
    DrillSound(a, objects, ledger, LastNames(listed, Some(limit)), net);
  }

  /** What is drilled is always the end of the listing: without a limit all of it, and with a negative one all but the first so many. */
  lemma {:induction false} LimitKeepsTheEnd(listed: seq<string>, limit: Option<int>)
    ensures var names := LastNames(listed, limit);
      && |names| <= |listed| && names == listed[|listed| - |names|..]
      && (limit == None ==> names == listed)
      && (limit.Some? && limit.value < 0 ==> |names| == if |listed| + limit.value > 0 then |listed| + limit.value else 0)
  {
  }

  /** One object that does not parse, and a limit of 0: it is drilled, and reported as failed. */
  lemma {:induction false} LimitOfZero(a: Authority, objects: map<string, Bytes>, ledger: Option<map<string, Entry>>,
                                       net: nat -> Download)
    ensures var d := DrillAll(a, objects, ledger, LastNames(["x"], Some(0)), net);
      !d.raised && |d.report.verified| + |d.report.failures| == 1
  {
    hide DrillAll, EndsDrill;
    LimitExactly(a, objects, ["x"], 0, ledger, net);
    DrillReportsExactly(a, objects, ledger, ["x"], net);
    NotAName(a, objects, ledger, net(0));
  }

  lemma NotAName(a: Authority, objects: map<string, Bytes>, ledger: Option<map<string, Entry>>, download: Download)
    ensures !EndsDrill(a, objects, ledger, "x", download)
  {
    assert "x"[0] == 'x';
    assert ObjectName.Parse("x").Err?;
  }
}
