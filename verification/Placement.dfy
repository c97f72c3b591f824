/**
 * What a partition's directory gives to the backup: its files, the place its manifest says it
 * belongs, and what of it can be packed.
 */
module Placement {
  import opened Wrappers
  import opened Framing
  import opened PartitionTar
  import opened CaptureArchive
  import opened BackupOutcome
  import Text
  import ObjectName

  // ---- Listings ------------------------------------------------------------

  /** The regular files of a directory, by name, whatever else it holds. */
  lemma {:induction false} FilesInExactly(d: Listing, name: string, data: Bytes)
    requires DistinctNames(d)
    ensures name in FilesIn(d) && FilesIn(d)[name] == data <==> DirEntry(name, true, data) in d
  {
    if d != [] {
      var front, e := d[..|d| - 1], d[|d| - 1];
      DistinctFront(d);
      LastIsNew(d);
      FilesInExactly(front, name, data);
      assert d == front + [e];
      hide DistinctNames;
    }
  }

  /** Those that are packed: the regular files whose names do not end in `.tmp`. */
  lemma {:induction false} KeptExactly(d: Listing, name: string, data: Bytes)
    requires DistinctNames(d)
    ensures name in KeptFiles(d) && KeptFiles(d)[name] == data <==>
            DirEntry(name, true, data) in d && !exists stem :: name == stem + ".tmp"
  {
    KeptFilesOf(d);
    Scratch(name);
    hide KeptFiles, Text.EndsWith;
    if x :| x in d && IsKept(x) && x.name == name {
      assert x == DirEntry(name, true, x.data);
      OneOfAName(d, x, DirEntry(name, true, data));
    }
    if DirEntry(name, true, data) in d && !Text.EndsWith(name, ".tmp") {
      assert IsKept(DirEntry(name, true, data));
    }
  }

  lemma OneOfAName(d: Listing, x: DirEntry, y: DirEntry)
    requires DistinctNames(d) && x.name == y.name
    ensures x in d && y in d ==> x == y
  {
  }

  lemma Scratch(name: string)
    ensures Text.EndsWith(name, ".tmp") <==> exists stem :: name == stem + ".tmp"
  {
    if Text.EndsWith(name, ".tmp") {
      assert name == name[..|name| - 4] + ".tmp";
    }
    if stem :| name == stem + ".tmp" {
      assert name[|name| - 4..] == ".tmp";
    }
  }

  // ---- Where a partition belongs -------------------------------------------

  /** The identity its manifest states. */
  ghost predicate States(a: Authority, files: Files, id: Identity) {
    "MANIFEST.json" in files && exists hash :: a.manifest(files["MANIFEST.json"]) == Some(Manifest(hash, Some(id)))
  }

  /** An approved contract that the label admits. */
  predicate Admits(a: Authority, rootLabel: string, id: Identity) {
    id.sourceId in a.contracts && rootLabel in a.admitted && id.sourceId in a.admitted[rootLabel]
  }

  /** The path of that contract, day and session. */
  function HomeOf(c: Contract, id: Identity): string {
    "v1/exchange=" + c.exchange + "/instrument=" + c.instrument + "/date=" + id.date + "/session=" + id.session
  }

  /**
   * A partition is in its place exactly when its manifest states an identity of an approved
   * contract that the label admits, and it stands at the path of that contract, day and
   * session; otherwise the first of these that fails is the error.
   */
  lemma {:induction false} PlacedExactly(a: Authority, files: Files, rootLabel: string, relative: string)
    ensures var r := CanonicalPathError(a, files, rootLabel, relative);
      && (r == None <==> exists id ::
            States(a, files, id) && Admits(a, rootLabel, id) && relative == HomeOf(a.contracts[id.sourceId], id))
      && (r == Some(IdentityUnreadable) <==> !exists id :: States(a, files, id))
      && (r == Some(ContractNotApproved) <==> exists id :: States(a, files, id) && !Admits(a, rootLabel, id))
      && (r == Some(NotAtCanonicalPath) <==> exists id ::
            States(a, files, id) && Admits(a, rootLabel, id) && relative != HomeOf(a.contracts[id.sourceId], id))
  {
    forall c: Contract, id: Identity
      ensures ObjectName.Relative(ObjectName.Layout(c.exchange, c.instrument, id.date, id.session)) == HomeOf(c, id) {
      ObjectName.NameText("r0", ObjectName.Layout(c.exchange, c.instrument, id.date, id.session));
    }
    hide HomeOf, ObjectName.Relative;
    if MANIFEST in files && a.manifest(files[MANIFEST]).Some? && a.manifest(files[MANIFEST]).value.identity.Some? {
      var m := a.manifest(files[MANIFEST]).value;
      assert States(a, files, m.identity.value) by { assert m == Manifest(m.contentHash, m.identity); }
    }
  }

  // ---- What can be packed --------------------------------------------------

  predicate OfAPartition(name: string) {
    || name == "session.json" || name == "lifecycle.ndjson" || name == "MANIFEST.json"
    || name == "records.ndjson.gz" || name == "COMPACTION.json"
  }

  predicate Packs(e: DirEntry, relative: string) {
    OfAPartition(e.name) && Fits(MemberOf(relative, e))
  }

  /** A kept file that cannot be packed, before all others that cannot, by name. */
  ghost predicate FirstMisfit(d: Listing, relative: string, e: DirEntry) {
    && e in d && IsKept(e) && !Packs(e, relative)
    && forall y | y in d && IsKept(y) && Text.Less(y.name, e.name) :: Packs(y, relative)
  }

  /** Packing fails over the first file, by name, that cannot be packed, and says why not; without one it succeeds. */
  lemma {:induction false} PackFailsAs(d: Listing, relative: string, n: string)
    requires DistinctNames(d)
    ensures Pack(d, relative) == Err(UnexpectedFile(n)) <==>
            exists e :: FirstMisfit(d, relative, e) && e.name == n && !OfAPartition(n)
    ensures Pack(d, relative) == Err(DoesNotFit(n)) <==>
            exists e :: FirstMisfit(d, relative, e) && e.name == n && OfAPartition(n)
    ensures Pack(d, relative).Ok? <==> forall e | e in d && IsKept(e) :: Packs(e, relative)
  {
    SortedAscending(d);
    var s := Sorted(d);
    forall n ensures n in PARTITION_FILES <==> OfAPartition(n) {
    }
    PackOutcome(d, relative);
    PackMembersStops(s, relative);
    hide Sorted, IsKept, Fits, MemberOf, Text.Less, OfAPartition, PackMembers, Ascending;
    if Pack(d, relative).Err? {
      var i: nat :| StopsAt(s, relative, i);
      StopsFirst(d, s, relative, i);
      forall e | FirstMisfit(d, relative, e) ensures e == s[i] {
        MisfitOnce(d, relative, e, s[i]);
      }
    }
  }

  lemma StopsFirst(d: Listing, s: Listing, relative: string, i: nat)
    requires Ascending(s) && (forall x :: x in s <==> x in d) && StopsAt(s, relative, i)
    ensures i < |s| && FirstMisfit(d, relative, s[i])
  {
    forall n ensures n in PARTITION_FILES <==> OfAPartition(n) {
    }
    hide IsKept, Fits, MemberOf, Ascending, OfAPartition;
    assert s[i] in s;
    forall y | y in d && IsKept(y) && Text.Less(y.name, s[i].name) ensures Packs(y, relative) {
      assert y in s;
      var j :| 0 <= j < |s| && s[j] == y;
      AscendingBefore(s, i, j);
    }
  }

  lemma MisfitOnce(d: Listing, relative: string, x: DirEntry, y: DirEntry)
    requires DistinctNames(d) && FirstMisfit(d, relative, x) && FirstMisfit(d, relative, y)
    ensures x == y
  {
    Text.LessTotal(x.name, y.name);
    hide Packs, IsKept, Text.Less;
    OneOfAName(d, x, y);
  }
}
