/**
 * Which evidence archives are published and which are refused, as what: by the members the
 * archive holds, in their order, and the inventory that is expected.
 */
module RecoveryTable {
  import opened Wrappers
  import opened Framing
  import opened PartitionTar
  import opened Recovery

  /** What the members up to and with this one weigh. */
  function WeightTo(ms: seq<Member>, i: nat): nat
    requires i <= |ms|
  {
    if i == 0 then 0 else WeightTo(ms, i - 1) + |ms[i - 1].data|
  }

  /** An earlier member bears this name. */
  predicate Seen(ms: seq<Member>, i: nat, name: string)
    requires i <= |ms|
  {
    exists j :: 0 <= j < i && ms[j].name == name
  }

  /** Of one of two names the other is a directory. */
  predicate InTheWay(a: string, b: string) {
    a + "/" <= b || b + "/" <= a
  }

  predicate Obstructed(ms: seq<Member>, i: nat, name: string)
    requires i <= |ms|
  {
    exists j :: 0 <= j < i && InTheWay(ms[j].name, name)
  }

  /** The member could be written as the one that is expected under its name. */
  predicate Expected(ms: seq<Member>, i: nat, expected: Inventory)
    requires i < |ms|
  {
    var m := ms[i];
    SafeMember(m.name) && m.isRegular && m.name in expected && !Seen(ms, i, m.name)
  }

  predicate RightSize(ms: seq<Member>, i: nat, expected: Inventory)
    requires i < |ms| && ms[i].name in expected
  {
    WeightTo(ms, i + 1) <= 16_777_216 && |ms[i].data| == expected[ms[i].name].bytes
  }

  /** What is wrong with a member, if anything is. */
  predicate Offends(ms: seq<Member>, i: nat, expected: Inventory, e: UnpackError)
    requires i < |ms|
  {
    match e
    case UnsafeMember => !SafeMember(ms[i].name)
    case UnexpectedOrDuplicateMember => SafeMember(ms[i].name) && !Expected(ms, i, expected)
    case SizeMismatch => Expected(ms, i, expected) && !RightSize(ms, i, expected)
    case PathConflict => Expected(ms, i, expected) && RightSize(ms, i, expected) && Obstructed(ms, i, ms[i].name)
    case _ => false
  }

  ghost predicate Blameless(ms: seq<Member>, n: nat, expected: Inventory)
    requires n <= |ms|
  {
    forall i, e | 0 <= i < n :: !Offends(ms, i, expected, e)
  }

  /** The first member that offends, and how. */
  ghost predicate FirstOffence(ms: seq<Member>, i: int, expected: Inventory, e: UnpackError) {
    0 <= i < |ms| && Blameless(ms, i, expected) && Offends(ms, i, expected, e)
  }

  // ---- Staging, member by member -------------------------------------------

  /** What stands in staging after the first members. */
  ghost predicate StagedTo(ms: seq<Member>, n: nat, tree: Tree, total: nat)
    requires n <= |ms|
  {
    && total == WeightTo(ms, n)
    && (forall name :: name in tree <==> Seen(ms, n, name))
  }

  lemma SeenNext(ms: seq<Member>, n: nat, name: string)
    requires n < |ms|
    ensures Seen(ms, n + 1, name) <==> Seen(ms, n, name) || ms[n].name == name
  {
    if Seen(ms, n + 1, name) {
      var j :| 0 <= j < n + 1 && ms[j].name == name;
    }
  }

  lemma ConflictsIs(ms: seq<Member>, n: nat, tree: Tree, total: nat, name: string)
    requires n <= |ms| && StagedTo(ms, n, tree, total)
    ensures Conflicts(tree, name) <==> Obstructed(ms, n, name)
  {
    hide WeightTo;
    if Conflicts(tree, name) {
      var k :| k in tree && (IsAbove(k, name) || IsAbove(name, k));
      assert Seen(ms, n, k);
      var j :| 0 <= j < n && ms[j].name == k;
      assert InTheWay(ms[j].name, name);
    }
    if Obstructed(ms, n, name) {
      var j :| 0 <= j < n && InTheWay(ms[j].name, name);
      assert Seen(ms, n, ms[j].name);
      assert ms[j].name in tree;
    }
  }

  /** The step and the table agree: on whether, and on why not. */
  lemma OneStaged(ms: seq<Member>, n: nat, tree: Tree, total: nat, expected: Inventory)
    requires n < |ms| && StagedTo(ms, n, tree, total)
    ensures match StageOne(tree, total, ms[n], expected)
            case Err(e) => Offends(ms, n, expected, e)
            case Ok((after, weight)) => StagedTo(ms, n + 1, after, weight) && forall e :: !Offends(ms, n, expected, e)
  {
    ConflictsIs(ms, n, tree, total, ms[n].name);
    assert ms[n].name in tree <==> Seen(ms, n, ms[n].name);
    hide SafeMember, Conflicts, Obstructed, Seen;
    if StageOne(tree, total, ms[n], expected).Ok? {
      MoreStaged(ms, n, tree, total);
      hide StagedTo;
    }
  }

  lemma MoreStaged(ms: seq<Member>, n: nat, tree: Tree, total: nat)
    requires n < |ms| && StagedTo(ms, n, tree, total)
    ensures StagedTo(ms, n + 1, tree[ms[n].name := ms[n].data], total + |ms[n].data|)
  {
    forall name ensures Seen(ms, n + 1, name) <==> Seen(ms, n, name) || ms[n].name == name {
      SeenNext(ms, n, name);
    }
    hide Seen;
  }

  lemma BlamelessNext(ms: seq<Member>, n: nat, expected: Inventory)
    requires n < |ms| && Blameless(ms, n, expected) && forall e :: !Offends(ms, n, expected, e)
    ensures Blameless(ms, n + 1, expected)
  {
    hide Offends;
  }

  lemma {:induction false} StagedExactly(ms: seq<Member>, n: nat, expected: Inventory)
    requires n <= |ms|
    ensures match StageAll(ms[..n], expected)
            case Err(e) => exists i :: FirstOffence(ms, i, expected, e)
            case Ok((tree, total)) => Blameless(ms, n, expected) && StagedTo(ms, n, tree, total)
  {
    hide StageOne, Offends, Blameless, WeightTo, Seen, StagedTo;
    if n == 0 {
      NothingStagedYet(ms, expected);
    } else {
      StagedExactly(ms, n - 1, expected);
      assert ms[..n][..n - 1] == ms[..n - 1];
      if StageAll(ms[..n - 1], expected).Ok? {
        var (tree, total) := StageAll(ms[..n - 1], expected).value;
        OneStaged(ms, n - 1, tree, total, expected);
        assert StageAll(ms[..n], expected) == StageOne(tree, total, ms[n - 1], expected);
        match StageOne(tree, total, ms[n - 1], expected)
        case Err(e) =>
          assert StageAll(ms[..n], expected) == Err(e);
          assert FirstOffence(ms, n - 1, expected, e);
        case Ok(_) => BlamelessNext(ms, n - 1, expected);
      } else {
        StageFailsEarly(ms[..n], expected, n - 1);
      }
    }
  }

  lemma NothingStagedYet(ms: seq<Member>, expected: Inventory)
    ensures ms[..0] == [] && Blameless(ms, 0, expected) && StagedTo(ms, 0, map[], 0)
  {
  }

  lemma OneFirst(ms: seq<Member>, i: int, expected: Inventory, e: UnpackError, j: int, f: UnpackError)
    requires FirstOffence(ms, i, expected, e) && FirstOffence(ms, j, expected, f)
    ensures i == j && e == f
  {
    hide SafeMember, Seen, Obstructed, WeightTo;
  }

  // ---- Refused, exactly ----------------------------------------------------

  /**
   * The digest is looked at first; then each member in turn, and the first that is unsafe,
   * unexpected, repeated, of a wrong size or in another's way decides; then the archive's end;
   * then whether all that was expected is there.
   */
  lemma {:induction false} RefusedAs(sha: Bytes -> string, archive: Bytes, expected: Packed, e: UnpackError)
    ensures var (ms, whole) := Stream(archive);
      Unpack(sha, archive, expected) == Err(e) <==>
        || (e == HashMismatch && sha(archive) != expected.sha)
        || (sha(archive) == expected.sha && exists i :: FirstOffence(ms, i, expected.files, e))
        || (e == ArchiveUnreadable && sha(archive) == expected.sha && Blameless(ms, |ms|, expected.files) && !whole)
        || (e == InventoryMismatch && sha(archive) == expected.sha && Blameless(ms, |ms|, expected.files) && whole
            && !exists tree :: MembersAre(ms, tree) && InventoryOf(sha, tree) == expected.files)
  {
    UnpackIs(sha, archive, expected);
    hide Unpack, Stream, StageAll, Offends, InventoryOf, MembersAre, FirstOffence, Blameless;
    var (ms, whole) := Stream(archive);
    StagedExactly(ms, |ms|, expected.files);
    assert ms[..|ms|] == ms;
    if e.HashMismatch? || e.ArchiveUnreadable? || e.InventoryMismatch? {
      OffencesOnly(ms, expected.files, e);
    }
    forall i, f | FirstOffence(ms, i, expected.files, f) ensures !Blameless(ms, |ms|, expected.files) {
      OffenceBlames(ms, i, expected.files, f);
    }
    if StageAll(ms, expected.files).Err? {
      var f := StageAll(ms, expected.files).error;
      var j :| FirstOffence(ms, j, expected.files, f);
      forall i | FirstOffence(ms, i, expected.files, e) ensures e == f {
        OneFirst(ms, i, expected.files, e, j, f);
      }
    } else {
      var tree := StageAll(ms, expected.files).value.0;
      StageSound(ms, expected.files);
      forall other | MembersAre(ms, other) ensures other == tree {
        MembersOnce(ms, tree, other);
      }
    }
  }

  lemma UnpackIs(sha: Bytes -> string, archive: Bytes, expected: Packed)
    ensures var (ms, whole) := Stream(archive); var staged := StageAll(ms, expected.files);
      Unpack(sha, archive, expected) ==
        if sha(archive) != expected.sha then Err(HashMismatch)
        else if staged.Err? then Err(staged.error)
        else if !whole then Err(ArchiveUnreadable)
        else if InventoryOf(sha, staged.value.0) != expected.files then Err(InventoryMismatch)
        else Ok(staged.value.0)
  {
    hide Stream, StageAll, InventoryOf;
  }

  lemma OffenceBlames(ms: seq<Member>, i: int, expected: Inventory, e: UnpackError)
    requires FirstOffence(ms, i, expected, e)
    ensures !Blameless(ms, |ms|, expected)
  {
    hide Offends;
  }

  lemma OffencesOnly(ms: seq<Member>, expected: Inventory, e: UnpackError)
    requires e.HashMismatch? || e.ArchiveUnreadable? || e.InventoryMismatch?
    ensures forall i :: !FirstOffence(ms, i, expected, e)
  {
  }

  lemma MembersOnce(ms: seq<Member>, a: Tree, b: Tree)
    requires MembersAre(ms, a) && MembersAre(ms, b)
    ensures a == b
  {
    hide SafeMember, IsAbove;
    assert a.Keys == b.Keys;
  }

  // ---- Published, exactly --------------------------------------------------

  /** Safe members of a tree that fits, with the inventory expected, are staged whole. */
  lemma {:induction false} StagedWhole(sha: Bytes -> string, ms: seq<Member>, tree: Tree)
    requires MembersAre(ms, tree) && TreeSize(tree) <= MAX_EVIDENCE
    ensures StageAll(ms, InventoryOf(sha, tree)) == Ok((tree, TreeSize(tree)))
  {
    hide TreeSize, InventoryOf, StageAll, MembersAre, Chosen, MembersFor;
    var order := NamesOf(ms, tree);
    StagePacked(sha, tree, order);
  }

  lemma NamesOf(ms: seq<Member>, tree: Tree) returns (order: seq<string>)
    requires MembersAre(ms, tree)
    ensures Unobstructed(tree) && (forall n | n in order :: n in tree && SafeMember(n))
    ensures forall i, j | 0 <= i < j < |order| :: order[i] != order[j]
    ensures MembersFor(tree, order) == ms && Chosen(tree, order) == tree
  {
    hide SafeMember, IsAbove;
    order := seq(|ms|, i requires 0 <= i < |ms| => ms[i].name);
    assert forall i | 0 <= i < |ms| :: order[i] == ms[i].name;
    NotAboveItself(tree);
    forall n | n in tree ensures n in order {
      var i :| 0 <= i < |ms| && ms[i].name == n;
      assert order[i] == n;
    }
    assert MembersFor(tree, order) == ms;
    assert Chosen(tree, order) == tree;
  }

  lemma NotAboveItself(tree: Tree)
    ensures forall n | n in tree :: !IsAbove(n, n)
  {
  }

  /**
   * A tree is published exactly when the archive bears the expected digest, can be read whole,
   * holds the tree's files as safe regular members none twice, and these fit the ceiling and
   * are the expected inventory; in whatever order, and whatever follows the archive's end.
   */
  lemma {:induction false} PublishedExactly(sha: Bytes -> string, archive: Bytes, expected: Packed, tree: Tree)
    ensures Unpack(sha, archive, expected) == Ok(tree) <==>
      && sha(archive) == expected.sha && Stream(archive).1
      && MembersAre(Stream(archive).0, tree) && TreeSize(tree) <= MAX_EVIDENCE
      && InventoryOf(sha, tree) == expected.files
  {
    hide Stream, StageAll, MembersAre, TreeSize, InventoryOf, SafeMember;
    if Unpack(sha, archive, expected) == Ok(tree) {
      PublishedIsExpected(sha, archive, expected);
    }
    if MembersAre(Stream(archive).0, tree) && TreeSize(tree) <= MAX_EVIDENCE {
      StagedWhole(sha, Stream(archive).0, tree);
    }
  }
}
