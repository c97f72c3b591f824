/**
 * What the off-site backup asks of the capture archive: the manifest of a partition,
 * whether it is complete, whether it replays, and where its own contract, day and
 * session say it belongs. The archive itself is not part of this model, so these
 * answers are functions of the partition's files.
 */
module CaptureArchive {
  import opened Wrappers
  import opened Framing
  import opened PartitionTar
  import ObjectName

  const OPEN_MARKER := "OPEN"
  const RAW_RECORDS := "records.ndjson"

  /** The identity a manifest states, once its day and session have been read as such. */
  datatype Identity = Identity(sourceId: string, date: string, session: string)

  datatype Manifest = Manifest(contentHash: string, identity: Option<Identity>)

  datatype Contract = Contract(exchange: string, instrument: string)

  /** How a full replay ends: the records it read, a refusal of the archive, or an error nobody foresaw. */
  datatype Replaying = ReplaysWhole(records: nat) | RefusesToReplay | ReplayRaises

  /**
   * `complete` is the status read: `None` when it raises. It catches some errors on metadata
   * it cannot read, but not those of a session that is no object or an id that is no string.
   */
  datatype Authority = Authority(
    manifest: Bytes -> Option<Manifest>,
    complete: Files -> Option<bool>,
    replay: Files -> Replaying,
    contracts: map<string, Contract>,
    admitted: map<string, set<string>>,
    sha: Bytes -> string)

  predicate IsComplete(a: Authority, files: Files) {
    a.complete(files) == Some(true)
  }

  /**
   * Approved contracts print tokens, days and sessions print canonically, and a complete
   * partition without raw records holds all five files of a compacted one.
   */
  ghost predicate WellFormed(a: Authority) {
    && a.admitted.Keys == ObjectName.APPROVED_LABELS
    && (forall s | s in a.contracts ::
          ObjectName.IsToken(a.contracts[s].exchange) && ObjectName.IsToken(a.contracts[s].instrument))
    && (forall bs: Bytes | a.manifest(bs).Some? && a.manifest(bs).value.identity.Some? ::
          && ObjectName.IsIsoDate(a.manifest(bs).value.identity.value.date)
          && ObjectName.IsSessionId(a.manifest(bs).value.identity.value.session))
    && (forall files: Files | IsComplete(a, files) && RAW_RECORDS !in files :: PARTITION_FILES <= files.Keys)
  }

  ghost predicate Injective(sha: Bytes -> string) {
    forall x: Bytes, y: Bytes | sha(x) == sha(y) :: x == y
  }

  /** Every regular file of a directory, scratch files included. */
  function FilesIn(d: Listing): Files {
    if d == [] then map[]
    else if d[|d| - 1].isFile then FilesIn(d[..|d| - 1])[d[|d| - 1].name := d[|d| - 1].data]
    else FilesIn(d[..|d| - 1])
  }

  function ManifestOf(a: Authority, files: Files): Option<Manifest> {
    if MANIFEST in files then a.manifest(files[MANIFEST]) else None
  }

  datatype PathError = IdentityUnreadable | ContractNotApproved | NotAtCanonicalPath

  /** `require_canonical_path`; `None` when the partition sits where it must. */
  function CanonicalPathError(a: Authority, files: Files, rootLabel: string, relative: string): Option<PathError> {
    match ManifestOf(a, files)
    case None => Some(IdentityUnreadable)
    case Some(m) =>
      match m.identity
      case None => Some(IdentityUnreadable)
      case Some(id) =>
        if id.sourceId !in a.contracts || rootLabel !in a.admitted || id.sourceId !in a.admitted[rootLabel]
        then Some(ContractNotApproved)
        else
          var c := a.contracts[id.sourceId];
          if ObjectName.Relative(ObjectName.Layout(c.exchange, c.instrument, id.date, id.session)) != relative
          then Some(NotAtCanonicalPath)
          else None
  }

  /** A partition at its canonical path under an approved label has a name a restore accepts. */
  lemma {:induction false} CanonicalNamesParse(a: Authority, files: Files, rootLabel: string, relative: string)
    requires WellFormed(a) && CanonicalPathError(a, files, rootLabel, relative).None?
    ensures ObjectName.Parse(ObjectName.ObjectName(rootLabel, relative)) == Ok((rootLabel, relative))
  {
    hide ObjectName.Relative, ObjectName.Parse, ObjectName.IsToken, ObjectName.IsIsoDate, ObjectName.IsSessionId;
    var id := ManifestOf(a, files).value.identity.value;
    var c := a.contracts[id.sourceId];
    ObjectName.ParsePrinted(rootLabel, ObjectName.Layout(c.exchange, c.instrument, id.date, id.session));
  }

  lemma {:induction false} FilesInHeld(d: Listing, name: string)
    requires name in FilesIn(d)
    ensures Holds(d, name) && exists x :: x in d && x.isFile && x.name == name
  {
    var front, e := d[..|d| - 1], d[|d| - 1];
    if name in FilesIn(front) {
      FilesInHeld(front, name);
      var i :| 0 <= i < |front| && front[i].name == name;
      assert d[i].name == name;
    } else {
      assert d[|d| - 1].name == name;
    }
  }

  /** What packs from a complete partition without raw records is exactly the five files. */
  lemma {:induction false} CompletePacksWhole(a: Authority, d: Listing, relative: string)
    requires WellFormed(a) && DistinctNames(d)
    requires IsComplete(a, FilesIn(d)) && !Holds(d, RAW_RECORDS) && Pack(d, relative).Ok?
    ensures KeptFiles(d).Keys == PARTITION_FILES
  {
    if RAW_RECORDS in FilesIn(d) {
      FilesInHeld(d, RAW_RECORDS);
    }
    KeptFilesOf(d);
    PackOutcome(d, relative);
    forall b | b in PARTITION_FILES ensures b in KeptFiles(d) {
      FilesInHeld(d, b);
      PartitionFileNames(b);
    }
  }

  function AsText(bs: Bytes): string {
    seq(|bs|, i requires 0 <= i < |bs| => bs[i] as char)
  }

  /** The two assumptions can hold together, of an authority that finds partitions complete. */
  lemma {:induction false} AssumptionsCanHold() returns (a: Authority, files: Files)
    ensures WellFormed(a) && Injective(a.sha) && IsComplete(a, files) && files.Keys == PARTITION_FILES
  {
    var manifest := Manifest("", Some(Identity("s", "2026-09-23", "00000000-0000-0000-0000-000000000000")));
    a := Authority((bs: Bytes) => Some(manifest), (fs: Files) => Some(PARTITION_FILES <= fs.Keys),
                   (fs: Files) => ReplaysWhole(0), map["s" := Contract("BYBIT", "X")], map["r0" := {"s"}, "u2" := {}], AsText);
    files := map b | b in PARTITION_FILES :: [];
    forall x: Bytes, y: Bytes | a.sha(x) == a.sha(y) ensures x == y {
      assert |AsText(x)| == |x| && |AsText(y)| == |y|;
      forall i | 0 <= i < |x| ensures x[i] == y[i] {
        assert AsText(x)[i] == x[i] as char && AsText(y)[i] == y[i] as char;
      }
    }
  }
}
