/**
 * One partition as one object: a deterministic archive of its files, and the
 * extraction that accepts nothing but exactly such an archive.
 *
 * The archive is a member list framed by lengths and closed by an end mark; what
 * follows the end mark is ignored, as `tarfile` ignores it. The ustar limits on a
 * member's name and size are kept.
 */
module PartitionTar {
  import opened Wrappers
  import opened Framing
  import opened Text

  type Files = map<string, Bytes>

  const SESSION := "session.json"
  const LIFECYCLE := "lifecycle.ndjson"
  const MANIFEST := "MANIFEST.json"
  const COMPACTED_RECORDS := "records.ndjson.gz"
  const COMPACTION := "COMPACTION.json"

  const PARTITION_FILES: set<string> := {SESSION, LIFECYCLE, MANIFEST, COMPACTED_RECORDS, COMPACTION}

  // ---- Directory listings --------------------------------------------------

  datatype DirEntry = DirEntry(name: string, isFile: bool, data: Bytes)

  /** A directory in whatever order the file system lists it. */
  type Listing = seq<DirEntry>

  ghost predicate DistinctNames(d: Listing) {
    forall i, j | 0 <= i < j < |d| :: d[i].name != d[j].name
  }

  predicate Holds(d: Listing, name: string) {
    exists i :: 0 <= i < |d| && d[i].name == name
  }

  /** Regular files that are not scratch files. */
  predicate IsKept(e: DirEntry) {
    e.isFile && !EndsWith(e.name, ".tmp")
  }

  /** The name-to-bytes map a listing stands for. */
  function KeptFiles(d: Listing): Files {
    if d == [] then map[]
    else if IsKept(d[|d| - 1]) then KeptFiles(d[..|d| - 1])[d[|d| - 1].name := d[|d| - 1].data]
    else KeptFiles(d[..|d| - 1])
  }

  // ---- Sorting -------------------------------------------------------------

  function Insert(e: DirEntry, d: Listing): Listing {
    if d == [] || Less(e.name, d[0].name) then [e] + d else [d[0]] + Insert(e, d[1..])
  }

  function Sorted(d: Listing): Listing {
    if d == [] then [] else Insert(d[0], Sorted(d[1..]))
  }

  ghost predicate Ascending(d: Listing) {
    forall i, j | 0 <= i < j < |d| :: Less(d[i].name, d[j].name)
  }

  lemma {:induction false} InsertAscending(e: DirEntry, d: Listing)
    requires Ascending(d) && forall x | x in d :: x.name != e.name
    ensures Ascending(Insert(e, d))
    ensures forall x :: x in Insert(e, d) <==> x == e || x in d
  {
    if d != [] {
      assert d == [d[0]] + d[1..];
      LessTotal(e.name, d[0].name);
      if Less(e.name, d[0].name) {
        forall j | 1 <= j < |d| ensures Less(e.name, d[j].name) {
          LessTransitive(e.name, d[0].name, d[j].name);
        }
      } else {
        assert d[0] in d;
        InsertAscending(e, d[1..]);
        var rest := Insert(e, d[1..]);
        forall j | 0 <= j < |rest| ensures Less(d[0].name, rest[j].name) {
          assert rest[j] in rest;
        }
      }
    }
  }

  lemma {:induction false} SortedAscending(d: Listing)
    requires DistinctNames(d)
    ensures Ascending(Sorted(d)) && forall x :: x in Sorted(d) <==> x in d
  {
    if d != [] {
      SortedAscending(d[1..]);
      assert d == [d[0]] + d[1..];
      InsertAscending(d[0], Sorted(d[1..]));
    }
  }

  lemma AscendingHead(a: Listing, b: Listing)
    requires Ascending(a) && Ascending(b) && a != [] && b != []
    requires forall x :: x in a <==> x in b
    ensures a[0] == b[0]
  {
    assert a[0] in b && b[0] in a;
    var i :| 0 <= i < |b| && b[i] == a[0];
    var j :| 0 <= j < |a| && a[j] == b[0];
    LessTotal(a[0].name, b[0].name);
  }

  lemma {:induction false} AscendingUnique(a: Listing, b: Listing)
    requires Ascending(a) && Ascending(b)
    requires forall x :: x in a <==> x in b
    ensures a == b
  {
    assert b != [] ==> b[0] in b;
    if a != [] {
      assert a[0] in b;
      AscendingHead(a, b);
      forall x ensures x in a[1..] <==> x in b[1..] {
        TailMembers(a, x);
        TailMembers(b, x);
      }
      AscendingUnique(a[1..], b[1..]);
      assert a == [a[0]] + a[1..] && b == [b[0]] + b[1..];
    }
  }

  lemma TailMembers(a: Listing, x: DirEntry)
    requires Ascending(a) && a != []
    ensures x in a[1..] <==> x in a && x != a[0]
  {
    assert a == [a[0]] + a[1..];
    if x in a[1..] {
      var i :| 0 <= i < |a[1..]| && a[1..][i] == x;
      LessTotal(a[0].name, a[0].name);
    }
  }

  // ---- Archives ------------------------------------------------------------

  datatype Member = Member(name: string, isRegular: bool, data: Bytes)

  const NAME_LIMIT := 100
  const PREFIX_LIMIT := 155
  const SIZE_LIMIT := 0x2_0000_0000

  /** A ustar name is short, or splits at a slash into a short enough prefix and name. */
  predicate NameFits(name: string) {
    |name| <= NAME_LIMIT
    || exists i :: 0 < i < |name| && name[i] == '/' && i <= PREFIX_LIMIT && |name| - i - 1 <= NAME_LIMIT
  }

  predicate Fits(m: Member) {
    NameFits(m.name) && |m.data| < SIZE_LIMIT
  }

  function Codes(s: string): (bs: Bytes)
    ensures |bs| == 4 * |s|
  {
    if s == "" then [] else BigEndian(s[0] as int, 4) + Codes(s[1..])
  }

  function FromCodes(bs: Bytes): Option<string> {
    if bs == [] then Some("")
    else if |bs| < 4 then None
    else
      var c := FromBigEndian(bs[..4]);
      if c < 0xD800 || 0xE000 <= c < 0x11_0000 then
        var rest :- FromCodes(bs[4..]);
        Some([c as char] + rest)
      else None
  }

  function MemberBytes(m: Member): Bytes {
    [1, if m.isRegular then 1 else 0] + Frame(Codes(m.name)) + Frame(m.data)
  }

  function ArchiveBytes(ms: seq<Member>): Bytes {
    if ms == [] then [0] else MemberBytes(ms[0]) + ArchiveBytes(ms[1..])
  }

  /** The members up to the end mark; `None` for bytes that are no archive. */
  function ReadArchive(bs: Bytes): Option<seq<Member>>
    decreases |bs|
  {
    if bs == [] then None
    else if bs[0] == 0 then Some([])
    else if |bs| < 2 then None
    else
      var (codes, afterName) :- Unframe(bs[2..]);
      var (data, afterData) :- Unframe(afterName);
      var name :- FromCodes(codes);
      var others :- ReadArchive(afterData);
      Some([Member(name, bs[1] == 1, data)] + others)
  }

  lemma {:induction false} CodesRoundTrip(s: string)
    ensures FromCodes(Codes(s)) == Some(s)
  {
    if s != "" {
      CodesRoundTrip(s[1..]);
      var bs := Codes(s);
      assert Limit(4) == 0x1_0000_0000;
      BigEndianRoundTrip(s[0] as int, 4);
      assert bs[..4] == BigEndian(s[0] as int, 4) && bs[4..] == Codes(s[1..]);
      assert s == [s[0]] + s[1..];
    }
  }

  lemma NameFitsShort(name: string)
    requires NameFits(name)
    ensures 4 * |name| < LENGTH_LIMIT
  {
  }

  lemma MemberRoundTrip(m: Member, rest: Bytes)
    requires Fits(m)
    ensures ReadArchive(MemberBytes(m) + rest) ==
            match ReadArchive(rest) case Some(ms) => Some([m] + ms) case None => None
  {
    hide Frame, Unframe, Codes, FromCodes;
    var bs := MemberBytes(m) + rest;
    var afterName := Frame(m.data) + rest;
    NameFitsShort(m.name);
    CodesRoundTrip(m.name);
    UnframeFrame(Codes(m.name), afterName);
    UnframeFrame(m.data, rest);
    assert bs[2..] == Frame(Codes(m.name)) + afterName;
  }

  /** Reading inverts writing, and whatever follows the end mark changes nothing. */
  lemma {:induction false} ReadWritten(ms: seq<Member>, trailing: Bytes)
    requires forall m | m in ms :: Fits(m)
    ensures ReadArchive(ArchiveBytes(ms) + trailing) == Some(ms)
    decreases |ms|
  {
    if ms != [] {
      var rest := ArchiveBytes(ms[1..]) + trailing;
      assert ArchiveBytes(ms) + trailing == MemberBytes(ms[0]) + rest;
      MemberRoundTrip(ms[0], rest);
      ReadWritten(ms[1..], trailing);
      assert ms == [ms[0]] + ms[1..];
    }
  }

  // ---- Packing a partition -------------------------------------------------

  /** The first is reported for the object; the second is an uncaught error of the archive writer. */
  datatype PackFailure = UnexpectedFile(name: string) | DoesNotFit(name: string)

  function PathOf(relative: string, base: string): string {
    relative + "/" + base
  }

  function MemberOf(relative: string, e: DirEntry): Member {
    Member(PathOf(relative, e.name), true, e.data)
  }

  /** The members of a listing taken in order; the first offending file decides the failure. */
  function PackMembers(d: Listing, relative: string): Result<seq<Member>, PackFailure> {
    if d == [] then Ok([])
    else
      var ms :- PackMembers(d[..|d| - 1], relative);
      var e := d[|d| - 1];
      if !IsKept(e) then Ok(ms)
      else if e.name !in PARTITION_FILES then Err(UnexpectedFile(e.name))
      else if !Fits(MemberOf(relative, e)) then Err(DoesNotFit(e.name))
      else Ok(ms + [MemberOf(relative, e)])
  }

  function Pack(d: Listing, relative: string): Result<Bytes, PackFailure> {
    var ms :- PackMembers(Sorted(d), relative);
    Ok(ArchiveBytes(ms))
  }

  /** `partition_tar_bytes`. */
  method PartitionTarBytes(d: Listing, relative: string) returns (r: Result<Bytes, PackFailure>)
    ensures r == Pack(d, relative)
  {
    var sorted := Sorted(d);
    var members: seq<Member> := [];
    for i := 0 to |sorted|
      invariant PackMembers(sorted[..i], relative) == Ok(members)
    {
      var e := sorted[i];
      assert sorted[..i + 1][..i] == sorted[..i];
      if IsKept(e) {
        if e.name !in PARTITION_FILES {
          PackFailsEarly(sorted, relative, i + 1);
          return Err(UnexpectedFile(e.name));
        }
        var m := Member(relative + "/" + e.name, true, e.data);
        if !Fits(m) {
          PackFailsEarly(sorted, relative, i + 1);
          return Err(DoesNotFit(e.name));
        }
        members := members + [m];
      }
    }
    assert sorted[..|sorted|] == sorted;
    return Ok(ArchiveBytes(members));
  }

  lemma {:induction false} PackFailsEarly(d: Listing, relative: string, i: nat)
    requires i <= |d| && PackMembers(d[..i], relative).Err?
    ensures PackMembers(d, relative) == PackMembers(d[..i], relative)
    decreases |d|
  {
    if i < |d| {
      assert d[..|d| - 1][..i] == d[..i];
      PackFailsEarly(d[..|d| - 1], relative, i);
    } else {
      assert d[..i] == d;
    }
  }

  // ---- Packing depends on the name-to-bytes map alone ----------------------

  function Kept(d: Listing): Listing {
    if d == [] then []
    else if IsKept(d[|d| - 1]) then Kept(d[..|d| - 1]) + [d[|d| - 1]]
    else Kept(d[..|d| - 1])
  }

  lemma {:induction false} KeptWhich(d: Listing)
    ensures forall x :: x in Kept(d) <==> x in d && IsKept(x)
  {
    hide IsKept;
    if d != [] {
      KeptWhich(d[..|d| - 1]);
      assert d == d[..|d| - 1] + [d[|d| - 1]];
    }
  }

  lemma {:induction false} KeptAscending(d: Listing)
    requires Ascending(d)
    ensures Ascending(Kept(d))
  {
    hide IsKept, Text.Less;
    if d != [] {
      var front := d[..|d| - 1];
      KeptAscending(front);
      KeptWhich(front);
      var k := Kept(front);
      forall i | 0 <= i < |k| ensures Text.Less(k[i].name, d[|front|].name) {
        assert k[i] in front;
        var j :| 0 <= j < |front| && front[j] == k[i];
        assert d[j] == k[i];
      }
    }
  }

  lemma {:induction false} KeptDistinct(d: Listing)
    requires DistinctNames(d)
    ensures DistinctNames(Kept(d))
  {
    hide IsKept;
    if d != [] {
      var front := d[..|d| - 1];
      DistinctFront(d);
      KeptDistinct(front);
      KeptWhich(front);
      LastIsNew(d);
      var k := Kept(front);
      forall i | 0 <= i < |k| ensures k[i].name != d[|front|].name {
        assert k[i] in front;
      }
    }
  }

  lemma KeptMembers(d: Listing)
    ensures forall x :: x in Kept(d) <==> x in d && IsKept(x)
    ensures Ascending(d) ==> Ascending(Kept(d))
    ensures DistinctNames(d) ==> DistinctNames(Kept(d))
  {
    hide IsKept, Kept, Ascending, DistinctNames;
    KeptWhich(d);
    if Ascending(d) {
      KeptAscending(d);
    }
    if DistinctNames(d) {
      KeptDistinct(d);
    }
  }

  lemma {:induction false} KeptFilesOf(d: Listing)
    requires DistinctNames(d)
    ensures forall n :: n in KeptFiles(d) <==> exists x :: x in d && IsKept(x) && x.name == n
    ensures forall x | x in d && IsKept(x) :: KeptFiles(d)[x.name] == x.data
  {
    hide IsKept, DistinctNames;
    if d != [] {
      hide KeptFiles;
      var front, e := d[..|d| - 1], d[|d| - 1];
      DistinctFront(d);
      KeptFilesOf(front);
      LastIsNew(d);
      KeptLast(d);
      assert d == front + [e];
    }
  }

  lemma KeptLast(d: Listing)
    requires d != []
    ensures var front, e := d[..|d| - 1], d[|d| - 1];
      KeptFiles(d) == if IsKept(e) then KeptFiles(front)[e.name := e.data] else KeptFiles(front)
  {
  }

  lemma LastIsNew(d: Listing)
    requires DistinctNames(d) && d != []
    ensures forall x | x in d[..|d| - 1] :: x.name != d[|d| - 1].name
  {
    var front := d[..|d| - 1];
    forall x | x in front ensures x.name != d[|d| - 1].name {
      var i :| 0 <= i < |front| && front[i] == x;
      assert d[i] == x;
    }
  }

  /** The entry of a kept file is its name and its bytes. */
  lemma KeptEntry(d: Listing, x: DirEntry)
    requires DistinctNames(d)
    ensures x in Kept(d) <==>
            IsKept(x) && x.name in KeptFiles(d) && KeptFiles(d)[x.name] == x.data
  {
    KeptMembers(d);
    KeptFilesOf(d);
    if IsKept(x) && x.name in KeptFiles(d) && KeptFiles(d)[x.name] == x.data {
      var y :| y in d && IsKept(y) && y.name == x.name;
      assert y == x;
    }
  }

  lemma {:induction false} AscendingDistinct(d: Listing)
    requires Ascending(d)
    ensures DistinctNames(d)
  {
    forall i, j | 0 <= i < j < |d| ensures d[i].name != d[j].name {
      LessTotal(d[i].name, d[j].name);
    }
  }

  lemma SortedKept(d: Listing)
    requires DistinctNames(d)
    ensures DistinctNames(Sorted(d)) && KeptFiles(Sorted(d)) == KeptFiles(d)
    ensures Ascending(Kept(Sorted(d))) && DistinctNames(Kept(Sorted(d)))
    ensures KeptFiles(Kept(Sorted(d))) == KeptFiles(d)
  {
    var s := Sorted(d);
    SortedAscending(d);
    AscendingDistinct(s);
    KeptFilesOf(d);
    KeptFilesOf(s);
    SameKeptFiles(s, d);
    KeptMembers(s);
    KeptFilesOf(Kept(s));
    SameKeptFiles(Kept(s), d);
  }

  lemma SameKeptFiles(a: Listing, b: Listing)
    requires DistinctNames(a) && DistinctNames(b)
    requires forall x | IsKept(x) :: x in a <==> x in b
    ensures KeptFiles(a) == KeptFiles(b)
  {
    KeptFilesOf(a);
    KeptFilesOf(b);
    forall n ensures n in KeptFiles(a) <==> n in KeptFiles(b) {
    }
    forall n | n in KeptFiles(a) ensures KeptFiles(a)[n] == KeptFiles(b)[n] {
      var x :| x in a && IsKept(x) && x.name == n;
    }
  }

  lemma {:induction false} PackIgnoresScratch(d: Listing, relative: string)
    ensures PackMembers(d, relative) == PackMembers(Kept(d), relative)
  {
    hide Fits, IsKept, MemberOf;
    if d != [] {
      var front, e := d[..|d| - 1], d[|d| - 1];
      PackIgnoresScratch(front, relative);
      if IsKept(e) {
        assert Kept(d)[..|Kept(d)| - 1] == Kept(front);
      }
    }
  }

  /** Two listings of the same kept files pack alike, whatever order or scratch files they show. */
  lemma {:induction false} PackDeterministic(a: Listing, b: Listing, relative: string)
    requires DistinctNames(a) && DistinctNames(b) && KeptFiles(a) == KeptFiles(b)
    ensures Pack(a, relative) == Pack(b, relative)
  {
    var s, t := Kept(Sorted(a)), Kept(Sorted(b));
    SortedKept(a);
    SortedKept(b);
    forall x ensures x in s <==> x in t {
      KeptEntry(Sorted(a), x);
      KeptEntry(Sorted(b), x);
    }
    AscendingUnique(s, t);
    PackIgnoresScratch(Sorted(a), relative);
    PackIgnoresScratch(Sorted(b), relative);
  }

  // ---- Extraction ----------------------------------------------------------

  datatype ExtractError = NotAnArchive | MemberOutsideItsPartition | NotExactlyOnePartition | TargetExists | BadName

  /** Files by base name, refusing members that are not files directly under `relative`. */
  function Collect(ms: seq<Member>, relative: string): Result<Files, ExtractError> {
    if ms == [] then Ok(map[])
    else
      var files :- Collect(ms[..|ms| - 1], relative);
      var m := ms[|ms| - 1];
      var (folder, base) := CutLast(m.name, '/');
      if !m.isRegular || folder != relative || base !in PARTITION_FILES || base in files
      then Err(MemberOutsideItsPartition)
      else Ok(files[base := m.data])
  }

  function Extract(body: Bytes, relative: string): Result<Files, ExtractError> {
    match ReadArchive(body)
    case None => Err(NotAnArchive)
    case Some(ms) =>
      var files :- Collect(ms, relative);
      if files.Keys != PARTITION_FILES then Err(NotExactlyOnePartition) else Ok(files)
  }

  lemma PartitionFileNames(base: string)
    requires base in PARTITION_FILES
    ensures '/' !in base && !EndsWith(base, ".tmp")
  {
  }

  lemma PackedNext(d: Listing, relative: string)
    requires d != [] && IsKept(d[|d| - 1]) && PackMembers(d, relative).Ok?
    ensures var front, e := d[..|d| - 1], d[|d| - 1];
      && PackMembers(front, relative).Ok? && e.name in PARTITION_FILES
      && PackMembers(d, relative).value == PackMembers(front, relative).value + [MemberOf(relative, e)]
  {
    hide Fits, MemberOf;
  }

  lemma CollectedNext(front: seq<Member>, files: Files, e: DirEntry, relative: string)
    requires Collect(front, relative) == Ok(files) && e.name in PARTITION_FILES && e.name !in files
    ensures Collect(front + [MemberOf(relative, e)], relative) == Ok(files[e.name := e.data])
  {
    PartitionFileNames(e.name);
    CutLastAt(relative, '/', e.name);
    hide CutLast;
    assert (front + [MemberOf(relative, e)])[..|front|] == front;
  }

  lemma KeptNext(d: Listing)
    requires DistinctNames(d) && d != [] && IsKept(d[|d| - 1])
    ensures var front, e := d[..|d| - 1], d[|d| - 1];
      e.name !in KeptFiles(front) && KeptFiles(d) == KeptFiles(front)[e.name := e.data]
  {
    hide IsKept;
    var front, e := d[..|d| - 1], d[|d| - 1];
    DistinctFront(d);
    KeptFilesOf(front);
    LastIsNew(d);
  }

  lemma {:induction false} CollectPacked(d: Listing, relative: string)
    requires DistinctNames(d) && (forall x | x in d :: IsKept(x))
    requires PackMembers(d, relative).Ok?
    ensures Collect(PackMembers(d, relative).value, relative) == Ok(KeptFiles(d))
  {
    hide IsKept, KeptFiles, DistinctNames, Fits;
    if d == [] {
      NothingKept();
    } else {
      hide PackMembers, Collect, MemberOf;
      var front, e := d[..|d| - 1], d[|d| - 1];
      assert d == front + [e] && e in d;
      DistinctFront(d);
      PackedNext(d, relative);
      CollectPacked(front, relative);
      KeptNext(d);
      CollectedNext(PackMembers(front, relative).value, KeptFiles(front), e, relative);
    }
  }

  lemma NothingKept()
    ensures KeptFiles([]) == map[]
  {
  }

  lemma DistinctFront(d: Listing)
    requires DistinctNames(d) && d != []
    ensures DistinctNames(d[..|d| - 1])
  {
    var front := d[..|d| - 1];
    forall i, j | 0 <= i < j < |front| ensures front[i].name != front[j].name {
      assert d[i] == front[i] && d[j] == front[j];
    }
  }

  lemma {:induction false} PackedFits(d: Listing, relative: string)
    requires PackMembers(d, relative).Ok?
    ensures forall m | m in PackMembers(d, relative).value :: Fits(m)
  {
    if d != [] {
      PackedFits(d[..|d| - 1], relative);
    }
  }

  /**
   * Extraction inverts packing: an object restores to exactly the files it was packed
   * from when these are the five files of a compacted partition, and to nothing otherwise.
   * Bytes after the end mark do not matter.
   */
  lemma {:induction false} ExtractPacked(d: Listing, relative: string, trailing: Bytes)
    requires DistinctNames(d) && Pack(d, relative).Ok?
    ensures Extract(Pack(d, relative).value + trailing, relative) ==
            if KeptFiles(d).Keys == PARTITION_FILES then Ok(KeptFiles(d)) else Err(NotExactlyOnePartition)
  {
    var k := Kept(Sorted(d));
    SortedKept(d);
    PackIgnoresScratch(Sorted(d), relative);
    KeptMembers(Sorted(d));
    CollectPacked(k, relative);
    PackedFits(k, relative);
    ReadWritten(PackMembers(k, relative).value, trailing);
  }

  /** Packing succeeds exactly when every kept file belongs to a partition and fits the archive format. */
  lemma {:induction false} PackOutcome(d: Listing, relative: string)
    requires DistinctNames(d)
    ensures Pack(d, relative).Ok? <==>
            forall x | x in d && IsKept(x) :: x.name in PARTITION_FILES && Fits(MemberOf(relative, x))
  {
    SortedAscending(d);
    PackMembersOutcome(Sorted(d), relative);
  }

  lemma {:induction false} PackMembersOutcome(d: Listing, relative: string)
    ensures PackMembers(d, relative).Ok? <==>
            forall x | x in d && IsKept(x) :: x.name in PARTITION_FILES && Fits(MemberOf(relative, x))
  {
    hide IsKept, Fits, MemberOf;
    if d != [] {
      PackMembersOutcome(d[..|d| - 1], relative);
      assert d == d[..|d| - 1] + [d[|d| - 1]];
    }
  }

  // ---- What extraction accepts ---------------------------------------------

  /** The member is a regular file of the partition, and `files` holds its bytes. */
  ghost predicate Supplies(m: Member, relative: string, files: Files) {
    m.isRegular && exists b :: b in PARTITION_FILES && b in files && m.name == PathOf(relative, b) && m.data == files[b]
  }

  ghost predicate Supplied(ms: seq<Member>, relative: string, b: string) {
    exists i :: 0 <= i < |ms| && ms[i].name == PathOf(relative, b)
  }

  /** The members are regular files directly under `relative`, none twice, and `files` is what they hold. */
  ghost predicate HoldExactly(ms: seq<Member>, relative: string, files: Files) {
    && (forall i | 0 <= i < |ms| :: Supplies(ms[i], relative, files))
    && (forall i, j | 0 <= i < j < |ms| :: ms[i].name != ms[j].name)
    && (forall b :: b in files <==> b in PARTITION_FILES && Supplied(ms, relative, b))
  }

  lemma PathOfInjective(relative: string, a: string, b: string)
    requires PathOf(relative, a) == PathOf(relative, b)
    ensures a == b
  {
    assert PathOf(relative, a)[|relative| + 1..] == a && PathOf(relative, b)[|relative| + 1..] == b;
  }

  lemma PathOfCut(name: string, relative: string)
    requires relative != "" && CutLast(name, '/').0 == relative
    ensures name == PathOf(relative, CutLast(name, '/').1)
  {
    CutLastParts(name, '/');
  }

  lemma CollectStep(front: seq<Member>, m: Member, relative: string, files: Files)
    requires relative != "" && HoldExactly(front, relative, files)
    requires m.isRegular && CutLast(m.name, '/').0 == relative
    requires CutLast(m.name, '/').1 in PARTITION_FILES && CutLast(m.name, '/').1 !in files
    ensures HoldExactly(front + [m], relative, files[CutLast(m.name, '/').1 := m.data])
  {
    hide CutLast, PathOf;
    var base := CutLast(m.name, '/').1;
    var ms, after := front + [m], files[base := m.data];
    PathOfCut(m.name, relative);
    forall i | 0 <= i < |ms| ensures Supplies(ms[i], relative, after) {
      if i < |front| {
        assert ms[i] == front[i] && Supplies(front[i], relative, files);
      }
    }
    forall i, j | 0 <= i < j < |ms| ensures ms[i].name != ms[j].name {
      if j == |front| {
        assert Supplies(front[i], relative, files);
      }
    }
    forall b ensures b in after <==> b in PARTITION_FILES && Supplied(ms, relative, b) {
      SuppliedExtended(front, m, relative, b);
      if b != base && PathOf(relative, b) == m.name {
        PathOfInjective(relative, b, base);
      }
    }
  }

  lemma SuppliedExtended(front: seq<Member>, m: Member, relative: string, b: string)
    ensures Supplied(front + [m], relative, b) <==> Supplied(front, relative, b) || m.name == PathOf(relative, b)
  {
    var ms := front + [m];
    if Supplied(front, relative, b) {
      var i :| 0 <= i < |front| && front[i].name == PathOf(relative, b);
      assert ms[i] == front[i];
    }
    assert ms[|front|] == m;
  }

  lemma HoldNothing(relative: string)
    ensures HoldExactly([], relative, map[])
  {
  }

  lemma HoldUnique(relative: string, files: Files)
    requires HoldExactly([], relative, files)
    ensures files == map[]
  {
  }

  lemma LastSupplies(ms: seq<Member>, relative: string, files: Files) returns (base: string)
    requires ms != [] && HoldExactly(ms, relative, files)
    ensures base in PARTITION_FILES && base in files
    ensures ms[|ms| - 1] == Member(PathOf(relative, base), true, files[base])
  {
    var m := ms[|ms| - 1];
    assert Supplies(m, relative, files);
    base :| base in PARTITION_FILES && base in files && m.name == PathOf(relative, base) && m.data == files[base];
  }

  lemma HoldFront(ms: seq<Member>, relative: string, files: Files, base: string)
    requires ms != [] && HoldExactly(ms, relative, files)
    requires base in files && ms[|ms| - 1].name == PathOf(relative, base)
    ensures HoldExactly(ms[..|ms| - 1], relative, files - {base})
  {
    hide PathOf, Supplied;
    var front, m := ms[..|ms| - 1], ms[|ms| - 1];
    var before := files - {base};
    assert ms == front + [m];
    forall i | 0 <= i < |front| ensures Supplies(front[i], relative, before) {
      assert ms[i] == front[i] && ms[i].name != ms[|front|].name;
      assert Supplies(ms[i], relative, files);
    }
    forall i, j | 0 <= i < j < |front| ensures front[i].name != front[j].name {
      assert ms[i] == front[i] && ms[j] == front[j];
    }
    NotSuppliedTwice(ms, relative, base);
    forall b ensures b in before <==> b in PARTITION_FILES && Supplied(front, relative, b) {
      SuppliedExtended(front, m, relative, b);
      if m.name == PathOf(relative, b) {
        PathOfInjective(relative, b, base);
      }
    }
  }

  lemma NotSuppliedTwice(ms: seq<Member>, relative: string, base: string)
    requires ms != [] && ms[|ms| - 1].name == PathOf(relative, base)
    requires forall i, j | 0 <= i < j < |ms| :: ms[i].name != ms[j].name
    ensures !Supplied(ms[..|ms| - 1], relative, base)
  {
    var front := ms[..|ms| - 1];
    assert forall i | 0 <= i < |front| :: front[i] == ms[i] && ms[i].name != ms[|ms| - 1].name;
  }

  /** Soundness: what is collected is exactly what the members hold. */
  lemma {:induction false} CollectSound(ms: seq<Member>, relative: string)
    requires relative != "" && Collect(ms, relative).Ok?
    ensures HoldExactly(ms, relative, Collect(ms, relative).value)
  {
    hide HoldExactly, CutLast;
    if ms == [] {
      HoldNothing(relative);
    } else {
      CollectSound(ms[..|ms| - 1], relative);
      assert ms == ms[..|ms| - 1] + [ms[|ms| - 1]];
      CollectStep(ms[..|ms| - 1], ms[|ms| - 1], relative, Collect(ms[..|ms| - 1], relative).value);
    }
  }

  /** Completeness: members that hold a partition are collected into just that. */
  lemma {:induction false} CollectComplete(ms: seq<Member>, relative: string, files: Files)
    requires HoldExactly(ms, relative, files)
    ensures Collect(ms, relative) == Ok(files)
  {
    hide HoldExactly, CutLast;
    if ms == [] {
      HoldUnique(relative, files);
    } else {
      var base := LastSupplies(ms, relative, files);
      HoldFront(ms, relative, files, base);
      CollectComplete(ms[..|ms| - 1], relative, files - {base});
      PartitionFileNames(base);
      CutLastAt(relative, '/', base);
      assert (files - {base})[base := files[base]] == files;
    }
  }

  /** Bytes extract to `files` exactly when they are an archive holding the five files and nothing else. */
  lemma {:induction false} ExtractExactly(body: Bytes, relative: string, files: Files)
    requires relative != ""
    ensures Extract(body, relative) == Ok(files) <==>
            && ReadArchive(body).Some?
            && files.Keys == PARTITION_FILES
            && HoldExactly(ReadArchive(body).value, relative, files)
  {
    if ReadArchive(body).Some? {
      var ms := ReadArchive(body).value;
      if Collect(ms, relative).Ok? {
        CollectSound(ms, relative);
      }
      if HoldExactly(ms, relative, files) {
        CollectComplete(ms, relative, files);
      }
    }
  }

  /** Which bytes are refused, and as what: no archive; members that are not those of one partition; too few of them. */
  lemma {:induction false} ExtractFails(body: Bytes, relative: string)
    requires relative != ""
    ensures var r := Extract(body, relative); var archive := ReadArchive(body);
      && (r == Err(NotAnArchive) <==> archive == None)
      && (r == Err(NotExactlyOnePartition) <==>
            archive != None && exists files: Files :: HoldExactly(archive.value, relative, files) && files.Keys != PARTITION_FILES)
      && (r == Err(MemberOutsideItsPartition) <==>
            archive != None && !exists files: Files :: HoldExactly(archive.value, relative, files))
  {
    hide HoldExactly, Collect;
    if ReadArchive(body).Some? {
      var ms := ReadArchive(body).value;
      if Collect(ms, relative).Ok? {
        CollectSound(ms, relative);
      } else {
        CollectRefuses(ms, relative);
      }
      forall files: Files | HoldExactly(ms, relative, files) ensures Collect(ms, relative) == Ok(files) {
        CollectComplete(ms, relative, files);
      }
    }
  }

  lemma {:induction false} CollectRefuses(ms: seq<Member>, relative: string)
    requires Collect(ms, relative).Err?
    ensures Collect(ms, relative) == Err(MemberOutsideItsPartition)
    decreases |ms|
  {
    hide CutLast;
    if Collect(ms[..|ms| - 1], relative).Err? {
      CollectRefuses(ms[..|ms| - 1], relative);
    }
  }
}
