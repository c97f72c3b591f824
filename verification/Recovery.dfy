/**
 * Private recovery evidence: digests over framed rows, inventories of a directory tree,
 * and an archive that is published whole or not at all.
 */
module Recovery {
  import opened Wrappers
  import opened Framing
  import opened Text
  import opened PartitionTar
  import ObjectName

  const MAX_EVIDENCE := 16 * 1024 * 1024

  // ---- Row digests ---------------------------------------------------------

  /** A running hash: all that has been fed to it so far. */
  class RunningHash {
    var fed: Bytes

    constructor ()
      ensures fed == []
    {
      fed := [];
    }

    method Update(bs: Bytes)
      modifies this
      ensures fed == old(fed) + bs
    {
      fed := fed + bs;
    }
  }

  /** What `row_digest` feeds to the hash: each row behind its length. */
  function Feed(rows: seq<Bytes>): Bytes {
    if rows == [] then [] else Frame(rows[0]) + Feed(rows[1..])
  }

  predicate Countable(rows: seq<Bytes>) {
    forall i | 0 <= i < |rows| :: |rows[i]| < LENGTH_LIMIT
  }

  lemma {:induction false} FeedAppend(rows: seq<Bytes>, row: Bytes)
    ensures Feed(rows + [row]) == Feed(rows) + Frame(row)
  {
    hide Frame;
    if rows == [] {
      assert [row][1..] == [] && Feed([]) == [];
      assert rows + [row] == [row];
    } else {
      FeedAppend(rows[1..], row);
      assert (rows + [row])[1..] == rows[1..] + [row];
    }
  }

  /** `row_digest`; `None` when a row's length does not fit its eight bytes. */
  method RowDigest(rows: seq<Bytes>, hash: RunningHash) returns (count: Option<nat>)
    requires hash.fed == []
    modifies hash
    ensures count.Some? <==> Countable(rows)
    ensures count.Some? ==> count.value == |rows| && hash.fed == Feed(rows)
  {
    hide Feed, Frame;
    var n := 0;
    NothingFed();
    while n < |rows|
      invariant 0 <= n <= |rows|
      invariant hash.fed == Feed(rows[..n]) && Countable(rows[..n])
    {
      if |rows[n]| >= LENGTH_LIMIT {
        return None;
      }
      FeedAppend(rows[..n], rows[n]);
      assert rows[..n + 1] == rows[..n] + [rows[n]];
      FrameParts(rows[n]);
      ghost var before := hash.fed;
      hash.Update(BigEndian(|rows[n]|, 8));
      hash.Update(rows[n]);
      assert hash.fed == before + Frame(rows[n]);
      n := n + 1;
    }
    assert rows[..n] == rows;
    count := Some(n);
  }

  lemma NothingFed()
    ensures forall rows: seq<Bytes> :: Feed(rows[..0]) == []
  {
  }

  lemma FrameParts(row: Bytes)
    ensures forall before: Bytes :: before + BigEndian(|row|, 8) + row == before + Frame(row)
  {
    forall before: Bytes ensures before + BigEndian(|row|, 8) + row == before + Frame(row) {
      assert before + BigEndian(|row|, 8) + row == before + (BigEndian(|row|, 8) + row);
    }
  }

  lemma FeedHead(row: Bytes, rest: Bytes, row': Bytes, rest': Bytes)
    requires |row| < LENGTH_LIMIT && |row'| < LENGTH_LIMIT
    requires Frame(row) + rest == Frame(row') + rest'
    ensures row == row' && rest == rest'
  {
    hide Frame, Unframe;
    UnframeFrame(row, rest);
    UnframeFrame(row', rest');
  }

  /** The fed bytes determine the rows: how many, in which order, and where each one ends. */
  lemma {:induction false} FeedInjective(a: seq<Bytes>, b: seq<Bytes>)
    requires Countable(a) && Countable(b) && Feed(a) == Feed(b)
    ensures a == b
  {
    if a == [] || b == [] {
      assert |Feed(a)| == 0;
    } else {
      FeedHead(a[0], Feed(a[1..]), b[0], Feed(b[1..]));
      FeedInjective(a[1..], b[1..]);
      assert a == [a[0]] + a[1..] && b == [b[0]] + b[1..];
    }
  }

  // ---- Member names --------------------------------------------------------

  /** How many slashes make the root of a POSIX path: exactly two are kept, more count as one. */
  function RootOf(name: string): string {
    if "//" <= name && !("///" <= name) then "//"
    else if "/" <= name then "/"
    else ""
  }

  function Significant(parts: seq<string>): seq<string> {
    if parts == [] then []
    else if parts[0] == "" || parts[0] == "." then Significant(parts[1..])
    else [parts[0]] + Significant(parts[1..])
  }

  /** `PurePosixPath(name).as_posix()`. */
  function AsPosix(name: string): string {
    var parts := Significant(Split(name, '/'));
    if parts == [] then (if RootOf(name) == "" then "." else RootOf(name))
    else RootOf(name) + Join(parts, '/')
  }

  /** `safe_member` does not raise. */
  predicate SafeMember(name: string) {
    && name != "" && '\\' !in name && ':' !in name
    && RootOf(name) == ""
    && ".." !in Significant(Split(name, '/'))
    && AsPosix(name) == name
    && name != "." && name != ".."
  }

  /** A relative path as a directory walk reports it: plain components only. */
  predicate IsWalked(name: string) {
    forall c | c in Split(name, '/') :: ObjectName.IsPlain(c)
  }

  lemma {:induction false} SignificantOfPlain(parts: seq<string>)
    requires forall c | c in parts :: ObjectName.IsPlain(c)
    ensures Significant(parts) == parts
  {
    if parts != [] {
      assert ObjectName.IsPlain(parts[0]);
      SignificantOfPlain(parts[1..]);
    }
  }

  lemma {:induction false} SignificantParts(parts: seq<string>)
    ensures forall c | c in Significant(parts) :: c in parts && c != "" && c != "."
  {
    if parts != [] {
      SignificantParts(parts[1..]);
      assert forall c | c in parts[1..] :: c in parts;
    }
  }

  lemma NoRoot(name: string)
    requires name != "" && Split(name, '/')[0] != ""
    ensures RootOf(name) == ""
  {
    assert name[..0] == "";
  }

  /** The safe names are exactly the walked ones without a backslash or a colon. */
  lemma {:induction false} SafeExactly(name: string)
    ensures SafeMember(name) <==> IsWalked(name) && '\\' !in name && ':' !in name
  {
    hide Split, Join;
    var parts := Split(name, '/');
    SignificantParts(parts);
    JoinSplit(name, '/');
    if IsWalked(name) {
      SignificantOfPlain(parts);
      assert ObjectName.IsPlain(parts[0]);
      WalkedIsProper(name);
      NoRoot(name);
    }
    if SafeMember(name) {
      var kept := Significant(parts);
      assert kept != [];
      SplitJoin(kept, '/');
      assert name == Join(kept, '/') by { assert "" + Join(kept, '/') == Join(kept, '/'); }
    }
  }

  lemma WalkedIsProper(name: string)
    requires IsWalked(name)
    ensures name != "" && name != "." && name != ".."
  {
    hide Split;
    SplitWhole("", '/');
    SplitWhole(".", '/');
    SplitWhole("..", '/');
    assert Split(name, '/')[0] in Split(name, '/');
  }

  /** A safe name written under the staging directory stays under it, component by component. */
  lemma {:induction false} SafeStaysInside(name: string, staging: seq<string>)
    requires SafeMember(name)
    ensures ObjectName.Resolve(staging, Split(name, '/')) == staging + Split(name, '/')
    ensures |staging + Split(name, '/')| > |staging|
  {
    hide SafeMember, ObjectName.Resolve;
    SafeExactly(name);
    ObjectName.ResolvePlain(staging, Split(name, '/'));
  }

  // ---- Directory trees and their inventories -------------------------------

  /** Files by relative path. */
  type Tree = Files

  datatype FileRecord = FileRecord(bytes: nat, sha: string)
  type Inventory = map<string, FileRecord>

  datatype Node = File(data: Bytes) | Folder | Link | Special
  datatype Walked = Walked(name: string, node: Node)

  datatype InventoryError = LinksForbidden | SpecialForbidden | SizeCeiling

  function InventoryOf(sha: Bytes -> string, tree: Tree): Inventory {
    map n | n in tree :: FileRecord(|tree[n]|, sha(tree[n]))
  }

  ghost function TreeSize(tree: Tree): nat
    decreases |tree|
  {
    if tree == map[] then 0
    else
      var n :| n in tree;
      |tree[n]| + TreeSize(tree - {n})
  }

  lemma {:induction false} TreeSizeWithout(tree: Tree, n: string)
    requires n in tree
    ensures TreeSize(tree) == |tree[n]| + TreeSize(tree - {n})
    decreases |tree|
  {
    var k :| k in tree && TreeSize(tree) == |tree[k]| + TreeSize(tree - {k});
    if k != n {
      TreeSizeWithout(tree - {k}, n);
      TreeSizeWithout(tree - {n}, k);
      assert tree - {k} - {n} == tree - {n} - {k};
    }
  }

  lemma TreeSizeAdd(tree: Tree, n: string, data: Bytes)
    requires n !in tree
    ensures TreeSize(tree[n := data]) == TreeSize(tree) + |data|
  {
    TreeSizeWithout(tree[n := data], n);
    assert tree[n := data] - {n} == tree;
  }

  function TreeOf(walk: seq<Walked>): Tree {
    if walk == [] then map[]
    else
      var w := walk[|walk| - 1];
      if w.node.File? then TreeOf(walk[..|walk| - 1])[w.name := w.node.data] else TreeOf(walk[..|walk| - 1])
  }

  ghost predicate NamesDiffer(walk: seq<Walked>) {
    forall i, j | 0 <= i < j < |walk| :: walk[i].name != walk[j].name
  }

  lemma {:induction false} TreeOfNames(walk: seq<Walked>, n: string)
    requires forall i | 0 <= i < |walk| :: walk[i].name != n
    ensures n !in TreeOf(walk)
  {
    if walk != [] {
      TreeOfNames(walk[..|walk| - 1], n);
    }
  }

  lemma TreeOfNext(walk: seq<Walked>, i: nat)
    requires NamesDiffer(walk) && i < |walk|
    ensures walk[i].name !in TreeOf(walk[..i])
  {
    TreeOfNames(walk[..i], walk[i].name);
  }

  lemma InventoryAdd(sha: Bytes -> string, tree: Tree, n: string, data: Bytes)
    requires n !in tree
    ensures InventoryOf(sha, tree[n := data]) == InventoryOf(sha, tree)[n := FileRecord(|data|, sha(data))]
  {
  }

  lemma NothingInventoried(sha: Bytes -> string)
    ensures InventoryOf(sha, map[]) == map[] && TreeSize(map[]) == 0
  {
    NoFiles();
  }

  /** `file_inventory`: refuses links, special files, and trees over the ceiling. */
  method FileInventory(sha: Bytes -> string, walk: seq<Walked>) returns (r: Result<Inventory, InventoryError>)
    requires NamesDiffer(walk)
    ensures r.Ok? <==> && (forall i | 0 <= i < |walk| :: !walk[i].node.Link? && !walk[i].node.Special?)
                       && TreeSize(TreeOf(walk)) <= MAX_EVIDENCE
    ensures r.Ok? ==> r.value == InventoryOf(sha, TreeOf(walk))
    ensures r == Err(LinksForbidden) ==> exists i :: 0 <= i < |walk| && walk[i].node.Link?
    ensures r == Err(SpecialForbidden) ==> exists i :: 0 <= i < |walk| && walk[i].node.Special?
  {
    hide TreeSize, InventoryOf, NamesDiffer;
    NothingInventoried(sha);
    var result: Inventory, total := map[], 0;
    for i := 0 to |walk|
      invariant forall j | 0 <= j < i :: !walk[j].node.Link? && !walk[j].node.Special?
      invariant result == InventoryOf(sha, TreeOf(walk[..i]))
      invariant total == TreeSize(TreeOf(walk[..i])) <= MAX_EVIDENCE
    {
      assert walk[..i + 1][..i] == walk[..i];
      match walk[i].node {
        case Link =>
          return Err(LinksForbidden);
        case Special =>
          return Err(SpecialForbidden);
        case Folder =>
        case File(data) =>
          TreeOfNext(walk, i);
          TreeSizeAdd(TreeOf(walk[..i]), walk[i].name, data);
          InventoryAdd(sha, TreeOf(walk[..i]), walk[i].name, data);
          total := total + |data|;
          if total > MAX_EVIDENCE {
            TreeOnlyGrows(walk, i + 1);
            return Err(SizeCeiling);
          }
          result := result[walk[i].name := FileRecord(|data|, sha(data))];
      }
    }
    assert walk[..|walk|] == walk;
    return Ok(result);
  }

  lemma {:induction false} TreeOnlyGrows(walk: seq<Walked>, i: nat)
    requires i <= |walk| && NamesDiffer(walk)
    ensures TreeSize(TreeOf(walk[..i])) <= TreeSize(TreeOf(walk))
    decreases |walk|
  {
    if i < |walk| {
      var front, w := walk[..|walk| - 1], walk[|walk| - 1];
      assert front[..i] == walk[..i];
      TreeOnlyGrows(front, i);
      if w.node.File? {
        TreeOfNames(front, w.name);
        TreeSizeAdd(TreeOf(front), w.name, w.node.data);
      }
    } else {
      assert walk[..i] == walk;
    }
  }

  // ---- Packing -------------------------------------------------------------

  datatype Packed = Packed(sha: string, files: Inventory)

  function MemberFor(tree: Tree, n: string): Member
    requires n in tree
  {
    Member(n, true, tree[n])
  }

  function MembersFor(tree: Tree, order: seq<string>): seq<Member>
    requires forall n | n in order :: n in tree
  {
    seq(|order|, i requires 0 <= i < |order| => MemberFor(tree, order[i]))
  }

  /** The order lists every file of the tree once. */
  ghost predicate Enumerates(order: seq<string>, tree: Tree) {
    && (forall n :: n in order <==> n in tree)
    && (forall i, j | 0 <= i < j < |order| :: order[i] != order[j])
  }

  /** The archive `pack_evidence` writes for a tree it has inventoried. */
  function PackBytes(tree: Tree, order: seq<string>): Bytes
    requires forall n | n in order :: n in tree
  {
    ArchiveBytes(MembersFor(tree, order))
  }

  // ---- Staging -------------------------------------------------------------

  datatype UnpackError =
    | DestinationExists
    | HashMismatch
    | UnsafeMember
    | UnexpectedOrDuplicateMember
    | SizeMismatch
    | PathConflict
    | ArchiveUnreadable
    | InventoryMismatch

  /** `above` names a directory on the way to `below`. */
  predicate IsAbove(above: string, below: string) {
    above + "/" <= below
  }

  /** Writing `n` would need a directory where a file is, or a file where a directory is. */
  predicate Conflicts(tree: Tree, n: string) {
    exists k :: k in tree && (IsAbove(k, n) || IsAbove(n, k))
  }

  function StageOne(tree: Tree, total: nat, m: Member, expected: Inventory): Result<(Tree, nat), UnpackError> {
    if !SafeMember(m.name) then Err(UnsafeMember)
    else if !m.isRegular || m.name in tree || m.name !in expected then Err(UnexpectedOrDuplicateMember)
    else if total + |m.data| > MAX_EVIDENCE || |m.data| != expected[m.name].bytes then Err(SizeMismatch)
    else if Conflicts(tree, m.name) then Err(PathConflict)
    else Ok((tree[m.name := m.data], total + |m.data|))
  }

  function StageAll(ms: seq<Member>, expected: Inventory): Result<(Tree, nat), UnpackError> {
    if ms == [] then Ok((map[], 0))
    else
      var (tree, total) :- StageAll(ms[..|ms| - 1], expected);
      StageOne(tree, total, ms[|ms| - 1], expected)
  }

  /** The members that can be read in order, and whether the archive then ends properly. */
  function Stream(bs: Bytes): (seq<Member>, bool)
    decreases |bs|
  {
    if bs == [] then ([], false)
    else if bs[0] == 0 then ([], true)
    else if |bs| < 2 then ([], false)
    else
      match Unframe(bs[2..])
      case None => ([], false)
      case Some((codes, afterName)) =>
        match Unframe(afterName)
        case None => ([], false)
        case Some((data, afterData)) =>
          match FromCodes(codes)
          case None => ([], false)
          case Some(name) =>
            var (others, whole) := Stream(afterData);
            ([Member(name, bs[1] == 1, data)] + others, whole)
  }

  /** The tree `unpack_evidence` publishes for these archive bytes, or why it publishes nothing. */
  function Unpack(sha: Bytes -> string, archive: Bytes, expected: Packed): Result<Tree, UnpackError> {
    if sha(archive) != expected.sha then Err(HashMismatch)
    else
      var (tree, _) :- StageAll(Stream(archive).0, expected.files);
      if !Stream(archive).1 then Err(ArchiveUnreadable)
      else if InventoryOf(sha, tree) != expected.files then Err(InventoryMismatch)
      else Ok(tree)
  }

  lemma {:induction false} StageFailsEarly(ms: seq<Member>, expected: Inventory, i: nat)
    requires i <= |ms| && StageAll(ms[..i], expected).Err?
    ensures StageAll(ms, expected) == StageAll(ms[..i], expected)
    decreases |ms|
  {
    hide StageOne;
    if i < |ms| {
      assert ms[..|ms| - 1][..i] == ms[..i];
      StageFailsEarly(ms[..|ms| - 1], expected, i);
    } else {
      assert ms[..i] == ms;
    }
  }

  /** One pass over the members: what was written, and what stopped it. */
  method StageMembers(ms: seq<Member>, expected: Inventory) returns (refused: Option<UnpackError>, staged: Tree)
    ensures match StageAll(ms, expected)
      case Err(e) => refused == Some(e)
      case Ok((tree, _)) => refused == None && staged == tree
    ensures TreeSize(staged) <= MAX_EVIDENCE && forall n | n in staged :: SafeMember(n)
  {
    hide SafeMember, Conflicts;
    staged := map[];
    NoFiles();
    var seen: set<string>, total: nat := {}, 0;
    for i := 0 to |ms|
      invariant StageAll(ms[..i], expected) == Ok((staged, total))
      invariant seen == staged.Keys && total == TreeSize(staged) <= MAX_EVIDENCE
      invariant forall n | n in staged :: SafeMember(n)
    {
      var m := ms[i];
      assert ms[..i + 1][..i] == ms[..i];
      if StageOne(staged, total, m, expected).Err? {
        StageFailsEarly(ms, expected, i + 1);
      }
      if !SafeMember(m.name) {
        return Some(UnsafeMember), staged;
      }
      if !m.isRegular || m.name in seen || m.name !in expected {
        return Some(UnexpectedOrDuplicateMember), staged;
      }
      seen := seen + {m.name};
      total := total + |m.data|;
      if total > MAX_EVIDENCE || |m.data| != expected[m.name].bytes {
        return Some(SizeMismatch), staged;
      }
      if Conflicts(staged, m.name) {
        return Some(PathConflict), staged;
      }
      TreeSizeAdd(staged, m.name, m.data);
      staged := staged[m.name := m.data];
    }
    assert ms[..|ms|] == ms;
    return None, staged;
  }

  lemma NoFiles()
    ensures TreeSize(map[]) == 0
  {
  }

  /** Directories that have been published, by path. */
  class Host {
    var published: map<string, Tree>

    constructor ()
      ensures published == map[]
    {
      published := map[];
    }

    /**
     * `unpack_evidence`. A tree is published only whole, with the expected inventory; in
     * every other case nothing is. `staged` is what was ever written, all of it below the
     * staging directory and never more than the ceiling.
     */
    method UnpackEvidence(sha: Bytes -> string, archive: Bytes, destination: string, expected: Packed)
      returns (r: Result<Inventory, UnpackError>, staged: Tree)
      modifies this
      ensures old(destination in published) ==> r == Err(DestinationExists) && staged == map[]
      ensures r.Err? ==> published == old(published)
      ensures old(destination !in published) ==>
                match Unpack(sha, archive, expected)
                case Err(e) => r == Err(e)
                case Ok(tree) => r == Ok(expected.files) && published == old(published)[destination := tree] && staged == tree
      ensures TreeSize(staged) <= MAX_EVIDENCE && forall n | n in staged :: SafeMember(n)
    {
      hide SafeMember, Stream, StageAll;
      staged := map[];
      NoFiles();
      if destination in published {
        return Err(DestinationExists), staged;
      }
      if sha(archive) != expected.sha {
        return Err(HashMismatch), staged;
      }
      var (ms, whole) := Stream(archive);
      var refused: Option<UnpackError>;
      refused, staged := StageMembers(ms, expected.files);
      if refused.Some? {
        return Err(refused.value), staged;
      }
      if !whole {
        return Err(ArchiveUnreadable), staged;
      }
      if InventoryOf(sha, staged) != expected.files {
        return Err(InventoryMismatch), staged;
      }
      published := published[destination := staged];
      return Ok(expected.files), staged;
    }
  }

  // ---- Round trip ----------------------------------------------------------

  /** The tree of a real directory: walked names of bounded length, no file above another. */
  ghost predicate IsDirectoryTree(tree: Tree) {
    (forall n | n in tree :: IsWalked(n) && |n| <= 4096) && Unobstructed(tree)
  }

  /** No file stands above another. */
  ghost predicate Unobstructed(tree: Tree) {
    forall n, k | n in tree && k in tree :: !IsAbove(n, k)
  }

  lemma {:induction false} StreamWritten(ms: seq<Member>)
    requires forall m | m in ms :: 4 * |m.name| < LENGTH_LIMIT && |m.data| < LENGTH_LIMIT
    ensures Stream(ArchiveBytes(ms)) == (ms, true)
  {
    hide Frame, Unframe, Codes, FromCodes;
    if ms != [] {
      var m, rest := ms[0], ArchiveBytes(ms[1..]);
      var bs := ArchiveBytes(ms);
      var afterName := Frame(m.data) + rest;
      CodesRoundTrip(m.name);
      UnframeFrame(Codes(m.name), afterName);
      UnframeFrame(m.data, rest);
      assert bs[2..] == Frame(Codes(m.name)) + afterName;
      StreamWritten(ms[1..]);
      assert ms == [m] + ms[1..];
    }
  }

  function Chosen(tree: Tree, order: seq<string>): Tree {
    map n | n in order && n in tree :: tree[n]
  }

  lemma ChosenNext(tree: Tree, order: seq<string>, n: string)
    requires n in tree && n !in order
    ensures Chosen(tree, order + [n]) == Chosen(tree, order)[n := tree[n]]
    ensures TreeSize(Chosen(tree, order + [n])) == TreeSize(Chosen(tree, order)) + |tree[n]|
  {
    assert Chosen(tree, order + [n]) == Chosen(tree, order)[n := tree[n]];
    TreeSizeAdd(Chosen(tree, order), n, tree[n]);
  }

  lemma {:induction false} SmallerTree(part: Tree, tree: Tree)
    requires forall n | n in part :: n in tree && part[n] == tree[n]
    ensures TreeSize(part) <= TreeSize(tree)
    decreases |part|
  {
    if part != map[] {
      var n :| n in part;
      TreeSizeWithout(part, n);
      TreeSizeWithout(tree, n);
      SmallerTree(part - {n}, tree - {n});
    }
  }

  lemma NothingInTheWay(tree: Tree, front: seq<string>, n: string)
    requires Unobstructed(tree) && n in tree
    ensures !Conflicts(Chosen(tree, front), n)
  {
    hide IsAbove;
  }

  lemma StageNext(sha: Bytes -> string, tree: Tree, front: seq<string>, n: string)
    requires Unobstructed(tree) && TreeSize(tree) <= MAX_EVIDENCE
    requires n in tree && n !in front && SafeMember(n)
    ensures StageOne(Chosen(tree, front), TreeSize(Chosen(tree, front)), MemberFor(tree, n), InventoryOf(sha, tree)) ==
            Ok((Chosen(tree, front + [n]), TreeSize(Chosen(tree, front + [n]))))
  {
    hide SafeMember, Unobstructed, Conflicts, TreeSize, Chosen, InventoryOf;
    NothingInTheWay(tree, front, n);
    ChosenNext(tree, front, n);
    ChosenWithin(sha, tree, front, n);
  }

  lemma ChosenWithin(sha: Bytes -> string, tree: Tree, front: seq<string>, n: string)
    requires n in tree && n !in front
    ensures n !in Chosen(tree, front) && TreeSize(Chosen(tree, front + [n])) <= TreeSize(tree)
    ensures n in InventoryOf(sha, tree) && InventoryOf(sha, tree)[n].bytes == |tree[n]|
  {
    hide TreeSize;
    SmallerTree(Chosen(tree, front + [n]), tree);
  }

  lemma NothingStaged(sha: Bytes -> string, tree: Tree)
    ensures MembersFor(tree, []) == [] && Chosen(tree, []) == map[] && TreeSize(map[]) == 0
  {
    NoFiles();
  }

  /** Staging the members of a real tree with safe names rebuilds what they were taken from. */
  lemma {:induction false} StagePacked(sha: Bytes -> string, tree: Tree, order: seq<string>)
    requires Unobstructed(tree) && TreeSize(tree) <= MAX_EVIDENCE
    requires forall n | n in order :: n in tree && SafeMember(n)
    requires forall i, j | 0 <= i < j < |order| :: order[i] != order[j]
    ensures StageAll(MembersFor(tree, order), InventoryOf(sha, tree)) ==
            Ok((Chosen(tree, order), TreeSize(Chosen(tree, order))))
  {
    hide SafeMember, Unobstructed, StageOne, TreeSize, InventoryOf, MembersFor, Chosen;
    if order == [] {
      NothingStaged(sha, tree);
    } else {
      var front, n := order[..|order| - 1], order[|order| - 1];
      assert order == front + [n] && n in order;
      assert forall i | 0 <= i < |front| :: front[i] == order[i] && front[i] != order[|front|];
      StagePacked(sha, tree, front);
      StageNext(sha, tree, front, n);
      MembersNext(tree, order);
    }
  }

  lemma MembersNext(tree: Tree, order: seq<string>)
    requires order != [] && forall n | n in order :: n in tree
    ensures MembersFor(tree, order) != []
    ensures var ms := MembersFor(tree, order);
      ms[..|ms| - 1] == MembersFor(tree, order[..|order| - 1]) && ms[|ms| - 1] == MemberFor(tree, order[|order| - 1])
  {
  }

  /** A member that is not safe is refused wherever it stands. */
  lemma {:induction false} UnsafeRefused(ms: seq<Member>, expected: Inventory, i: nat)
    requires i < |ms| && !SafeMember(ms[i].name)
    ensures StageAll(ms, expected).Err?
    decreases |ms|
  {
    hide SafeMember;
    if i < |ms| - 1 {
      assert ms[..|ms| - 1][i] == ms[i];
      UnsafeRefused(ms[..|ms| - 1], expected, i);
    }
  }

  lemma PackedIsCountable(tree: Tree, order: seq<string>)
    requires IsDirectoryTree(tree) && TreeSize(tree) <= MAX_EVIDENCE && Enumerates(order, tree)
    ensures forall m | m in MembersFor(tree, order) :: 4 * |m.name| < LENGTH_LIMIT && |m.data| < LENGTH_LIMIT
  {
    hide IsWalked, IsAbove;
    forall m | m in MembersFor(tree, order) ensures 4 * |m.name| < LENGTH_LIMIT && |m.data| < LENGTH_LIMIT {
      var i :| 0 <= i < |order| && m == MemberFor(tree, order[i]);
      assert order[i] in order;
      TreeSizeWithout(tree, order[i]);
    }
  }

  /** The packed description of a tree: the digest of its archive, and its inventory. */
  function PackOf(sha: Bytes -> string, tree: Tree, order: seq<string>): Packed
    requires forall n | n in order :: n in tree
  {
    Packed(sha(PackBytes(tree, order)), InventoryOf(sha, tree))
  }

  /**
   * The round trip, and exactly when there is one. Packing does not check names the way
   * unpacking does, so the archive of a directory unpacks to the very same tree if no name
   * holds a backslash or a colon, and is refused otherwise.
   */
  lemma {:induction false} PackUnpacks(sha: Bytes -> string, tree: Tree, order: seq<string>)
    requires IsDirectoryTree(tree) && TreeSize(tree) <= MAX_EVIDENCE && Enumerates(order, tree)
    ensures Unpack(sha, PackBytes(tree, order), PackOf(sha, tree, order)) == Ok(tree)
            <==> forall n | n in tree :: '\\' !in n && ':' !in n
    ensures Unpack(sha, PackBytes(tree, order), PackOf(sha, tree, order)).Ok?
            <==> forall n | n in tree :: '\\' !in n && ':' !in n
  {
    hide SafeMember, IsWalked, IsAbove, ArchiveBytes, Stream;
    var ms := MembersFor(tree, order);
    PackedIsCountable(tree, order);
    StreamWritten(ms);
    forall n | n in tree ensures SafeMember(n) <==> '\\' !in n && ':' !in n {
      SafeExactly(n);
    }
    if forall n | n in tree :: '\\' !in n && ':' !in n {
      StagePacked(sha, tree, order);
      assert Chosen(tree, order) == tree;
    } else {
      var n :| n in tree && !SafeMember(n);
      var i :| 0 <= i < |order| && order[i] == n;
      UnsafeRefused(ms, InventoryOf(sha, tree), i);
    }
  }

  /** A directory that packs and does not unpack: one empty file named `a:b`. */
  lemma {:induction false} ColonDoesNotUnpack(sha: Bytes -> string)
    ensures var tree: Tree := map["a:b" := []];
      && IsDirectoryTree(tree) && Enumerates(["a:b"], tree) && TreeSize(tree) <= MAX_EVIDENCE
      && Unpack(sha, PackBytes(tree, ["a:b"]), PackOf(sha, tree, ["a:b"])).Err?
  {
    hide Unpack, PackBytes, PackOf, TreeSize;
    var tree: Tree := map["a:b" := []];
    SplitWhole("a:b", '/');
    assert forall c | c in ["a:b"] :: ObjectName.IsPlain(c);
    TreeSizeAdd(map[], "a:b", []);
    assert tree == map[]["a:b" := []];
    assert TreeSize(map[]) == 0 by { NoFiles(); }
    assert "a:b"[1] == ':' && "a:b" in tree;
    PackUnpacks(sha, tree, ["a:b"]);
  }

  // ---- What may be published -----------------------------------------------

  /** The archive's members, read whole, are `tree`: safe regular files, none twice, none in another's way. */
  ghost predicate MembersAre(ms: seq<Member>, tree: Tree) {
    && (forall i | 0 <= i < |ms| :: ms[i].isRegular && SafeMember(ms[i].name)
                                    && ms[i].name in tree && tree[ms[i].name] == ms[i].data)
    && (forall i, j | 0 <= i < j < |ms| :: ms[i].name != ms[j].name)
    && (forall n | n in tree :: exists i :: 0 <= i < |ms| && ms[i].name == n)
    && (forall n, k | n in tree && k in tree && n != k :: !IsAbove(n, k))
  }

  lemma StageStep(front: seq<Member>, m: Member, tree: Tree, total: nat, expected: Inventory)
    requires MembersAre(front, tree) && StageOne(tree, total, m, expected).Ok?
    ensures MembersAre(front + [m], tree[m.name := m.data])
  {
    hide SafeMember, IsAbove;
    var ms, after := front + [m], tree[m.name := m.data];
    forall i | 0 <= i < |ms|
      ensures ms[i].isRegular && SafeMember(ms[i].name) && ms[i].name in after && after[ms[i].name] == ms[i].data
    {
      assert i < |front| ==> ms[i] == front[i];
    }
    forall n | n in after ensures exists i :: 0 <= i < |ms| && ms[i].name == n {
      if n == m.name {
        assert ms[|front|].name == n;
      } else {
        var i :| 0 <= i < |front| && front[i].name == n;
        assert ms[i].name == n;
      }
    }
    forall i, j | 0 <= i < j < |ms| ensures ms[i].name != ms[j].name {
      assert ms[i] == front[i];
      assert j < |front| ==> ms[j] == front[j];
    }
  }

  lemma {:induction false} StageSound(ms: seq<Member>, expected: Inventory)
    requires StageAll(ms, expected).Ok?
    ensures MembersAre(ms, StageAll(ms, expected).value.0)
    ensures StageAll(ms, expected).value.1 == TreeSize(StageAll(ms, expected).value.0) <= MAX_EVIDENCE
  {
    hide MembersAre, SafeMember, Conflicts;
    if ms == [] {
      NoMembers();
      NoFiles();
    } else {
      var front, m := ms[..|ms| - 1], ms[|ms| - 1];
      StageSound(front, expected);
      var (tree, total) := StageAll(front, expected).value;
      StageStep(front, m, tree, total, expected);
      TreeSizeAdd(tree, m.name, m.data);
      assert ms == front + [m];
    }
  }

  lemma NoMembers()
    ensures MembersAre([], map[])
  {
  }

  /** Whatever the bytes are: a published tree is the archive's members and has the expected inventory. */
  lemma {:induction false} PublishedIsExpected(sha: Bytes -> string, archive: Bytes, expected: Packed)
    requires Unpack(sha, archive, expected).Ok?
    ensures var tree := Unpack(sha, archive, expected).value;
      && sha(archive) == expected.sha
      && InventoryOf(sha, tree) == expected.files
      && MembersAre(Stream(archive).0, tree) && Stream(archive).1
      && TreeSize(tree) <= MAX_EVIDENCE
      && (forall n | n in tree :: SafeMember(n))
  {
    hide SafeMember, Stream, IsAbove;
    StageSound(Stream(archive).0, expected.files);
  }

  /** With a digest that separates byte strings, an expected inventory admits one tree only. */
  lemma {:induction false} InventoryDetermines(sha: Bytes -> string, a: Tree, b: Tree)
    requires forall x: Bytes, y: Bytes | sha(x) == sha(y) :: x == y
    requires InventoryOf(sha, a) == InventoryOf(sha, b)
    ensures a == b
  {
    var i := InventoryOf(sha, a);
    assert a.Keys == i.Keys == b.Keys;
    forall n | n in a ensures a[n] == b[n] {
      assert i[n] == FileRecord(|a[n]|, sha(a[n])) == FileRecord(|b[n]|, sha(b[n]));
    }
  }
}
