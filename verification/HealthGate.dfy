/**
 * The data-health gate of signal validation: a VALIDATED assessment is refused when the
 * latest health assessment of some applicable group is blocking. The first gate groups by
 * scope and value, its successor by scope, value and interval.
 *
 * Times are integer microseconds. `DISTINCT ON` keeps, of each group, a row that the
 * ORDER BY puts first; between rows that it ties, any.
 */
module HealthGate {

  datatype Scope = Instrument | Strategy | AssetClass | Global

  datatype Assessment = Assessment(id: nat, scope: Scope, value: string, interval: string, kind: string,
                                   at: int, blocking: bool)

  datatype Proposal = Proposal(instrument: string, strategy: string)

  /** What the gate's query joins with: proposals by signal, and the asset class of each instrument. */
  datatype Context = Context(proposals: map<nat, Proposal>, assetClass: map<string, string>)

  datatype Signal = Signal(signal: nat, status: string, assessedAt: int)

  datatype Group = Group(scope: Scope, value: string, interval: string, kind: string)

  /** By what the latest assessment is taken: migrations 0010 and 0039, and each observation kind apart. */
  datatype Gate = Gate10 | Gate39 | ByKind

  function GroupOf(g: Gate, h: Assessment): Group {
    match g
    case Gate10 => Group(h.scope, h.value, "", "")
    case Gate39 => Group(h.scope, h.value, h.interval, "")
    case ByKind => Group(h.scope, h.value, h.interval, h.kind)
  }

  predicate Applies(c: Context, s: Signal, h: Assessment) {
    && s.signal in c.proposals
    && c.proposals[s.signal].instrument in c.assetClass
    && h.at <= s.assessedAt
    && match h.scope
       case Global => h.value == "*"
       case AssetClass => h.value == c.assetClass[c.proposals[s.signal].instrument]
       case Strategy => h.value == c.proposals[s.signal].strategy
       case Instrument => h.value == c.proposals[s.signal].instrument
  }

  function Applicable(c: Context, s: Signal, rows: set<Assessment>): set<Assessment> {
    set h | h in rows && Applies(c, s, h)
  }

  // ---- DISTINCT ON ---------------------------------------------------------

  /** No later row of its group. */
  predicate Latest(g: Gate, rows: set<Assessment>, h: Assessment) {
    h in rows && forall k | k in rows && GroupOf(g, k) == GroupOf(g, h) :: k.at <= h.at
  }

  predicate KeptOf(g: Gate, kept: set<Assessment>, group: Group) {
    exists k :: k in kept && GroupOf(g, k) == group
  }

  predicate OncePerGroup(g: Gate, kept: set<Assessment>) {
    forall h, k | h in kept && k in kept && GroupOf(g, h) == GroupOf(g, k) :: h == k
  }

  /** What the query may keep: one latest row of each group. */
  predicate Keeps(g: Gate, rows: set<Assessment>, kept: set<Assessment>) {
    && (forall h | h in kept :: Latest(g, rows, h))
    && (forall h | h in rows :: KeptOf(g, kept, GroupOf(g, h)))
    && OncePerGroup(g, kept)
  }

  /** The rows in an order the ORDER BY allows: groups together, later first. */
  predicate InOrder(g: Gate, rows: set<Assessment>, sorted: seq<Assessment>) {
    && (forall h | h in sorted :: h in rows)
    && (forall h | h in rows :: h in sorted)
    && (forall i, j | 0 <= i < j < |sorted| :: sorted[i] != sorted[j])
    && (forall i, j, k | 0 <= i < j < k < |sorted| && GroupOf(g, sorted[i]) == GroupOf(g, sorted[k]) ::
          GroupOf(g, sorted[j]) == GroupOf(g, sorted[i]))
    && (forall i, j | 0 <= i < j < |sorted| && GroupOf(g, sorted[i]) == GroupOf(g, sorted[j]) :: sorted[j].at <= sorted[i].at)
  }

  predicate FirstOfGroup(g: Gate, sorted: seq<Assessment>, i: nat)
    requires i < |sorted|
  {
    i == 0 || GroupOf(g, sorted[i - 1]) != GroupOf(g, sorted[i])
  }

  /** The first row of each run of one group. */
  function DistinctOn(g: Gate, sorted: seq<Assessment>): set<Assessment> {
    set i | 0 <= i < |sorted| && FirstOfGroup(g, sorted, i) :: sorted[i]
  }

  lemma {:induction false} RunBegins(g: Gate, sorted: seq<Assessment>, i: nat) returns (first: nat)
    requires i < |sorted|
    ensures first <= i && FirstOfGroup(g, sorted, first) && GroupOf(g, sorted[first]) == GroupOf(g, sorted[i])
  {
    first := i;
    while !FirstOfGroup(g, sorted, first)
      decreases first
      invariant first <= i && GroupOf(g, sorted[first]) == GroupOf(g, sorted[i])
    {
      first := first - 1;
    }
  }

  /** Of two rows of a group, the later in the order does not begin a run. */
  lemma OneRun(g: Gate, rows: set<Assessment>, sorted: seq<Assessment>, i: nat, j: nat)
    requires InOrder(g, rows, sorted) && i < |sorted| && j < |sorted| && GroupOf(g, sorted[i]) == GroupOf(g, sorted[j])
    ensures i < j ==> !FirstOfGroup(g, sorted, j)
  {
    hide GroupOf;
    if i < j - 1 {
      assert GroupOf(g, sorted[j - 1]) == GroupOf(g, sorted[i]);
    }
  }

  /** Sorting and keeping the first of each run keeps a latest row of each group. */
  lemma {:induction false} DistinctOnKeeps(g: Gate, rows: set<Assessment>, sorted: seq<Assessment>)
    requires InOrder(g, rows, sorted)
    ensures Keeps(g, rows, DistinctOn(g, sorted))
  {
    hide GroupOf, Latest;
    var kept := DistinctOn(g, sorted);
    forall h | h in rows ensures KeptOf(g, kept, GroupOf(g, h)) {
      KeptCovers(g, rows, sorted, h);
    }
    hide InOrder, DistinctOn, KeptOf;
    forall h | h in kept ensures Latest(g, rows, h) {
      KeptIsLatest(g, rows, sorted, h);
    }
    forall h, k | h in kept && k in kept && GroupOf(g, h) == GroupOf(g, k) ensures h == k {
      KeptOnce(g, rows, sorted, h, k);
    }
  }

  lemma KeptCovers(g: Gate, rows: set<Assessment>, sorted: seq<Assessment>, h: Assessment)
    requires InOrder(g, rows, sorted) && h in rows
    ensures KeptOf(g, DistinctOn(g, sorted), GroupOf(g, h))
  {
    hide GroupOf;
    assert h in sorted;
    var i :| 0 <= i < |sorted| && sorted[i] == h;
    hide InOrder;
    var first := RunBegins(g, sorted, i);
    assert sorted[first] in DistinctOn(g, sorted);
  }

  lemma KeptOnce(g: Gate, rows: set<Assessment>, sorted: seq<Assessment>, h: Assessment, k: Assessment)
    requires InOrder(g, rows, sorted) && GroupOf(g, h) == GroupOf(g, k)
    requires h in DistinctOn(g, sorted) && k in DistinctOn(g, sorted)
    ensures h == k
  {
    hide GroupOf, InOrder;
    var i :| 0 <= i < |sorted| && FirstOfGroup(g, sorted, i) && sorted[i] == h;
    var j :| 0 <= j < |sorted| && FirstOfGroup(g, sorted, j) && sorted[j] == k;
    OneRun(g, rows, sorted, i, j);
    OneRun(g, rows, sorted, j, i);
  }

  lemma KeptIsLatest(g: Gate, rows: set<Assessment>, sorted: seq<Assessment>, h: Assessment)
    requires InOrder(g, rows, sorted) && h in DistinctOn(g, sorted)
    ensures Latest(g, rows, h)
  {
    hide GroupOf;
    var i :| 0 <= i < |sorted| && FirstOfGroup(g, sorted, i) && sorted[i] == h;
    assert h in sorted;
    forall k | k in rows && GroupOf(g, k) == GroupOf(g, h) ensures k.at <= h.at {
      assert k in sorted;
      var j :| 0 <= j < |sorted| && sorted[j] == k;
      OneRun(g, rows, sorted, j, i);
    }
  }

  // ---- The trigger ---------------------------------------------------------

  /** `enforce_data_health_signal_validation`, for one outcome of its query: whether it raises. */
  predicate Refuses(s: Signal, kept: set<Assessment>) {
    s.status == "VALIDATED" && SomeBlocks(kept)
  }

  /** Some group's latest assessment is blocking. */
  predicate SomeLatestBlocks(g: Gate, rows: set<Assessment>) {
    exists h :: h in rows && Latest(g, rows, h) && h.blocking
  }

  /** The uniqueness keys: 0039's, and the one that later added the observation kind, tell the rows of a group apart by time. */
  predicate Unique(g: Gate, rows: set<Assessment>) {
    forall h, k | h in rows && k in rows && GroupOf(g, h) == GroupOf(g, k) && h.at == k.at :: h == k
  }

  predicate SomeBlocks(kept: set<Assessment>) {
    exists h :: h in kept && h.blocking
  }

  /** With 0039's key it makes no difference which outcome the query has. */
  lemma KeepsExactly(a: set<Assessment>, kept: set<Assessment>)
    requires Unique(Gate39, a) && Keeps(Gate39, a, kept)
    ensures SomeBlocks(kept) <==> SomeLatestBlocks(Gate39, a)
  {
    hide GroupOf;
    if SomeLatestBlocks(Gate39, a) {
      var h :| h in a && Latest(Gate39, a, h) && h.blocking;
      assert KeptOf(Gate39, kept, GroupOf(Gate39, h));
      var k :| k in kept && GroupOf(Gate39, k) == GroupOf(Gate39, h);
      assert Latest(Gate39, a, k);
      assert k == h;
    }
    if SomeBlocks(kept) {
      var h :| h in kept && h.blocking;
      assert Latest(Gate39, a, h);
    }
  }

  lemma ApplicableUnique(c: Context, s: Signal, rows: set<Assessment>)
    requires Unique(Gate39, rows)
    ensures Unique(Gate39, Applicable(c, s, rows))
  {
    hide GroupOf, Applies;
  }

  /** With 0039's key the gate refuses exactly when some applicable group's latest assessment blocks, in any order. */
  lemma {:induction false} Gate39Exactly(c: Context, s: Signal, rows: set<Assessment>, sorted: seq<Assessment>)
    requires Unique(Gate39, rows) && InOrder(Gate39, Applicable(c, s, rows), sorted)
    ensures Refuses(s, DistinctOn(Gate39, sorted))
            <==> s.status == "VALIDATED" && SomeLatestBlocks(Gate39, Applicable(c, s, rows))
  {
    hide Unique, InOrder, Keeps, Applicable, DistinctOn, SomeLatestBlocks, SomeBlocks;
    DistinctOnKeeps(Gate39, Applicable(c, s, rows), sorted);
    ApplicableUnique(c, s, rows);
    KeepsExactly(Applicable(c, s, rows), DistinctOn(Gate39, sorted));
  }

  /**
   * Refinement: on the same rows, whatever the 0010 gate refuses, for any way it breaks the
   * ties that 0039's key allows it, the 0039 gate refuses too.
   */
  lemma {:induction false} Gate39RefusesMore(c: Context, s: Signal, rows: set<Assessment>, by10: seq<Assessment>,
        by39: seq<Assessment>)
    requires Unique(Gate39, rows)
    requires InOrder(Gate10, Applicable(c, s, rows), by10) && InOrder(Gate39, Applicable(c, s, rows), by39)
    requires Refuses(s, DistinctOn(Gate10, by10))
    ensures Refuses(s, DistinctOn(Gate39, by39))
  {
    hide Unique, InOrder, Keeps, Applicable, DistinctOn, SomeLatestBlocks, SomeBlocks;
    DistinctOnKeeps(Gate10, Applicable(c, s, rows), by10);
    FinerRefusesMore(Gate10, Gate39, Applicable(c, s, rows), DistinctOn(Gate10, by10));
    Gate39Exactly(c, s, rows, by39);
  }

  // ---- Masking -------------------------------------------------------------

  /** Rows of different groups never meet: what blocks in either part blocks in both together, and nothing else does. */
  lemma {:induction false} NoGroupMasksAnother(g: Gate, one: set<Assessment>, other: set<Assessment>)
    requires forall h, k | h in one && k in other :: GroupOf(g, h) != GroupOf(g, k)
    ensures SomeLatestBlocks(g, one + other) <==> SomeLatestBlocks(g, one) || SomeLatestBlocks(g, other)
  {
    hide GroupOf;
    forall h ensures Latest(g, one + other, h) <==> Latest(g, one, h) || Latest(g, other, h) {
    }
  }

  /** So under 0039 the rows of one interval and those of all others decide apart. */
  lemma {:induction false} IntervalsDecideApart(rows: set<Assessment>, chosen: string)
    ensures var one := set h | h in rows && h.interval == chosen;
            SomeLatestBlocks(Gate39, rows) <==> SomeLatestBlocks(Gate39, one) || SomeLatestBlocks(Gate39, rows - one)
  {
    var one := set h | h in rows && h.interval == chosen;
    assert one + (rows - one) == rows;
    NoGroupMasksAnother(Gate39, one, rows - one);
  }

  /** Rows of the signal's own instrument, in time, all apply. */
  lemma BothApply(c: Context, s: Signal, one: Assessment, other: Assessment)
    requires s.signal in c.proposals && c.proposals[s.signal].instrument in c.assetClass
    requires one.scope.Instrument? && one.value == c.proposals[s.signal].instrument && one.at <= s.assessedAt
    requires other.scope.Instrument? && other.value == c.proposals[s.signal].instrument && other.at <= s.assessedAt
    ensures Applicable(c, s, {one, other}) == {one, other}
  {
    assert Applies(c, s, one) && Applies(c, s, other);
    hide Applies;
  }

  lemma UniqueApart(one: Assessment, other: Assessment)
    requires GroupOf(Gate39, one) != GroupOf(Gate39, other)
    ensures Unique(Gate39, {one, other})
  {
    hide GroupOf;
  }

  /** A row that blocks, and a later one of another interval that is fine: only the 0039 gate refuses. */
  lemma LaterMasks(c: Context, s: Signal, late: Assessment, early: Assessment)
    requires s.status == "VALIDATED" && Applicable(c, s, {early, late}) == {early, late}
    requires early.blocking && !late.blocking && early.at <= late.at
    requires GroupOf(Gate10, late) == GroupOf(Gate10, early) && GroupOf(Gate39, late) != GroupOf(Gate39, early)
    ensures var rows := {early, late};
      && Unique(Gate39, rows)
      && InOrder(Gate10, Applicable(c, s, rows), [late, early]) && !Refuses(s, DistinctOn(Gate10, [late, early]))
      && InOrder(Gate39, Applicable(c, s, rows), [late, early]) && Refuses(s, DistinctOn(Gate39, [late, early]))
  {
    hide Applicable, InOrder, DistinctOn, Unique, GroupOf;
    UniqueApart(early, late);
    assert {early, late} == {late, early};
    PairInOrder(Gate10, late, early);
    ApartInOrder(Gate39, late, early);
  }

  /** There is such a pair: a minute series that blocks, behind a daily one that is fine and later. */
  lemma {:induction false} Gate10Masks(c: Context, s: Signal, at: int)
    requires s.signal in c.proposals && c.proposals[s.signal].instrument in c.assetClass
    requires s.status == "VALIDATED" && at + 1 <= s.assessedAt
    ensures var minute := Assessment(1, Instrument, c.proposals[s.signal].instrument, "1m", "", at, true);
      var daily := Assessment(2, Instrument, c.proposals[s.signal].instrument, "1d", "", at + 1, false);
      var rows := {minute, daily};
      && Unique(Gate39, rows)
      && InOrder(Gate10, Applicable(c, s, rows), [daily, minute]) && !Refuses(s, DistinctOn(Gate10, [daily, minute]))
      && InOrder(Gate39, Applicable(c, s, rows), [daily, minute]) && Refuses(s, DistinctOn(Gate39, [daily, minute]))
  {
    hide Applicable, InOrder, DistinctOn, Unique, Refuses;
    var minute := Assessment(1, Instrument, c.proposals[s.signal].instrument, "1m", "", at, true);
    var daily := Assessment(2, Instrument, c.proposals[s.signal].instrument, "1d", "", at + 1, false);
    BothApply(c, s, minute, daily);
    assert minute.interval != daily.interval by { assert "1m"[1] != "1d"[1]; }
    LaterMasks(c, s, daily, minute);
  }

  // ---- After the observation kind joined the key ---------------------------

  /** Every latest row of some group blocks. */
  predicate SurelyBlocks(g: Gate, rows: set<Assessment>) {
    exists h :: h in rows && Latest(g, rows, h)
                && forall k | k in rows && Latest(g, rows, k) && GroupOf(g, k) == GroupOf(g, h) :: k.blocking
  }

  lemma {:induction false} LatestExists(g: Gate, rows: set<Assessment>, h: Assessment) returns (k: Assessment)
    requires h in rows
    ensures Latest(g, rows, k) && GroupOf(g, k) == GroupOf(g, h)
    decreases |set r | r in rows && r.at > h.at|
  {
    hide GroupOf;
    if Latest(g, rows, h) {
      k := h;
    } else {
      var later :| later in rows && GroupOf(g, later) == GroupOf(g, h) && later.at > h.at;
      var above, further := set r | r in rows && r.at > h.at, set r | r in rows && r.at > later.at;
      assert later in above && later !in further && further <= above;
      assert further <= above - {later};
      SubsetSize(further, above - {later});
      k := LatestExists(g, rows, later);
    }
  }

  lemma {:induction false} SubsetSize(small: set<Assessment>, large: set<Assessment>)
    requires small <= large
    ensures |small| <= |large|
    decreases |small|
  {
    if small != {} {
      var x :| x in small;
      SubsetSize(small - {x}, large - {x});
    }
  }

  ghost predicate HasLatest(g: Gate, rows: set<Assessment>, group: Group) {
    exists h :: Latest(g, rows, h) && GroupOf(g, h) == group
  }

  ghost predicate AllBlock(g: Gate, rows: set<Assessment>, group: Group) {
    forall k | Latest(g, rows, k) && GroupOf(g, k) == group :: k.blocking
  }

  /** A latest row of a group, not blocking if there is such a one. */
  ghost function Mildest(g: Gate, rows: set<Assessment>, group: Group): (h: Assessment)
    requires HasLatest(g, rows, group)
    ensures Latest(g, rows, h) && GroupOf(g, h) == group && (h.blocking ==> AllBlock(g, rows, group))
  {
    if exists h :: Latest(g, rows, h) && GroupOf(g, h) == group && !h.blocking
    then var h :| Latest(g, rows, h) && GroupOf(g, h) == group && !h.blocking; h
    else var h :| Latest(g, rows, h) && GroupOf(g, h) == group; h
  }

  lemma GroupsHaveLatest(g: Gate, rows: set<Assessment>)
    ensures forall h | h in rows :: HasLatest(g, rows, GroupOf(g, h))
  {
    hide GroupOf, Latest;
    forall h | h in rows ensures HasLatest(g, rows, GroupOf(g, h)) {
      var k := LatestExists(g, rows, h);
    }
  }

  /** Some outcome of the query keeps a mildest row of every group. */
  lemma MildestOutcome(g: Gate, rows: set<Assessment>) returns (kept: set<Assessment>)
    ensures Keeps(g, rows, kept)
    ensures forall h | h in kept && h.blocking :: AllBlock(g, rows, GroupOf(g, h))
  {
    GroupsHaveLatest(g, rows);
    hide GroupOf, Latest, HasLatest, AllBlock, Mildest;
    kept := set h | h in rows :: Mildest(g, rows, GroupOf(g, h));
    forall h | h in rows ensures KeptOf(g, kept, GroupOf(g, h)) {
      assert Mildest(g, rows, GroupOf(g, h)) in kept;
    }
  }

  /**
   * Without a key that makes the latest unique, the query blocks for sure exactly when every
   * latest row of some group does.
   */
  lemma {:induction false} SureExactly(g: Gate, rows: set<Assessment>)
    ensures SurelyBlocks(g, rows) <==> forall kept: set<Assessment> | Keeps(g, rows, kept) :: SomeBlocks(kept)
  {
    if SurelyBlocks(g, rows) {
      forall kept: set<Assessment> | Keeps(g, rows, kept) ensures SomeBlocks(kept) {
        SureBlocks(g, rows, kept);
      }
    } else {
      var kept := MildestOutcome(g, rows);
      forall h | h in kept ensures !h.blocking {
        assert Latest(g, rows, h);
      }
      hide GroupOf, Latest;
      assert !SomeBlocks(kept);
    }
  }

  lemma SureBlocks(g: Gate, rows: set<Assessment>, kept: set<Assessment>)
    requires SurelyBlocks(g, rows) && Keeps(g, rows, kept)
    ensures SomeBlocks(kept)
  {
    hide GroupOf, OncePerGroup;
    var h :| h in rows && Latest(g, rows, h)
             && forall k | k in rows && Latest(g, rows, k) && GroupOf(g, k) == GroupOf(g, h) :: k.blocking;
    assert KeptOf(g, kept, GroupOf(g, h));
    var k :| k in kept && GroupOf(g, k) == GroupOf(g, h);
    assert Latest(g, rows, k);
  }

  /**
   * The later key tells rows apart by observation kind too, but the gate was left as it
   * was: two kinds assessed at one instant tie, and the gate may go either way.
   */
  lemma {:induction false} KindsTie(c: Context, s: Signal, at: int)
    requires s.signal in c.proposals && c.proposals[s.signal].instrument in c.assetClass
    requires s.status == "VALIDATED" && at <= s.assessedAt
    ensures var settlement := Assessment(1, Instrument, c.proposals[s.signal].instrument, "1d", "SETTLEMENT_PRICE", at, true);
      var interest := Assessment(2, Instrument, c.proposals[s.signal].instrument, "1d", "OPEN_INTEREST", at, false);
      var rows := {settlement, interest};
      && Unique(ByKind, rows) && SomeLatestBlocks(ByKind, Applicable(c, s, rows))
      && InOrder(Gate39, Applicable(c, s, rows), [settlement, interest])
      && Refuses(s, DistinctOn(Gate39, [settlement, interest]))
      && InOrder(Gate39, Applicable(c, s, rows), [interest, settlement])
      && !Refuses(s, DistinctOn(Gate39, [interest, settlement]))
  {
    var settlement := Assessment(1, Instrument, c.proposals[s.signal].instrument, "1d", "SETTLEMENT_PRICE", at, true);
    var interest := Assessment(2, Instrument, c.proposals[s.signal].instrument, "1d", "OPEN_INTEREST", at, false);
    var rows := {settlement, interest};
    assert Applicable(c, s, rows) == rows;
    assert settlement.kind != interest.kind by { assert "SETTLEMENT_PRICE"[0] != "OPEN_INTEREST"[0]; }
    assert GroupOf(ByKind, settlement) != GroupOf(ByKind, interest);
    assert Unique(ByKind, rows) && Latest(ByKind, rows, settlement);
    assert GroupOf(Gate39, settlement) == GroupOf(Gate39, interest);
    assert rows == {interest, settlement};
    hide Applicable, GroupOf, InOrder, DistinctOn;
    PairInOrder(Gate39, settlement, interest);
    PairInOrder(Gate39, interest, settlement);
  }

  // ---- Exactly when two gates differ ---------------------------------------

  /** One gate groups as the next one does, but for one column more. */
  predicate Coarser(coarse: Gate, fine: Gate) {
    (coarse.Gate10? && fine.Gate39?) || (coarse.Gate39? && fine.ByKind?)
  }

  predicate BlocksItsGroup(g: Gate, rows: set<Assessment>, h: Assessment) {
    h in rows && Latest(g, rows, h) && h.blocking
  }

  /** Beside it, no earlier, stands a row of another fine group that is fine and latest of the coarse one. */
  predicate Masked(coarse: Gate, fine: Gate, rows: set<Assessment>, h: Assessment) {
    exists k :: k in rows && GroupOf(coarse, k) == GroupOf(coarse, h) && GroupOf(fine, k) != GroupOf(fine, h)
                && h.at <= k.at && !k.blocking && Latest(coarse, rows, k)
  }

  /** It stands behind a later row of another fine group. */
  predicate Overtaken(coarse: Gate, fine: Gate, rows: set<Assessment>, h: Assessment) {
    exists k :: k in rows && GroupOf(coarse, k) == GroupOf(coarse, h) && GroupOf(fine, k) != GroupOf(fine, h) && h.at < k.at
  }

  lemma LatestFiner(coarse: Gate, fine: Gate, rows: set<Assessment>, h: Assessment)
    requires Coarser(coarse, fine) && Latest(coarse, rows, h)
    ensures Latest(fine, rows, h)
  {
  }

  lemma FineApart(fine: Gate, rows: set<Assessment>, h: Assessment, k: Assessment)
    requires Unique(fine, rows) && Latest(fine, rows, h) && k in rows && h != k && h.at <= k.at
    ensures GroupOf(fine, k) != GroupOf(fine, h)
  {
    hide GroupOf;
  }

  /** Whatever the coarser gate refuses, in any outcome of its query, the finer one refuses. */
  lemma FinerRefusesMore(coarse: Gate, fine: Gate, rows: set<Assessment>, kept: set<Assessment>)
    requires Coarser(coarse, fine) && Keeps(coarse, rows, kept) && SomeBlocks(kept)
    ensures SomeLatestBlocks(fine, rows)
  {
    hide GroupOf, KeptOf, OncePerGroup;
    var h :| h in kept && h.blocking;
    LatestFiner(coarse, fine, rows, h);
  }

  lemma FineLatest(g: Gate, rows: set<Assessment>, first: Assessment) returns (k: Assessment)
    requires !SurelyBlocks(g, rows) && Latest(g, rows, first)
    ensures k in rows && Latest(g, rows, k) && GroupOf(g, k) == GroupOf(g, first) && !k.blocking
  {
    hide GroupOf, Latest;
    LatestIn(g, rows, first);
    k :| k in rows && Latest(g, rows, k) && GroupOf(g, k) == GroupOf(g, first) && !k.blocking;
  }

  lemma LatestIsLatest(g: Gate, rows: set<Assessment>, k: Assessment, h: Assessment)
    requires Latest(g, rows, k) && h in rows && GroupOf(g, k) == GroupOf(g, h)
    ensures h.at <= k.at
  {
    hide GroupOf;
  }

  lemma LatestIn(g: Gate, rows: set<Assessment>, h: Assessment)
    requires Latest(g, rows, h)
    ensures h in rows
  {
  }

  lemma MaskedWhere(coarse: Gate, fine: Gate, rows: set<Assessment>, h: Assessment)
    requires Unique(fine, rows) && !SurelyBlocks(coarse, rows) && BlocksItsGroup(fine, rows, h)
    ensures Masked(coarse, fine, rows, h)
  {
    hide GroupOf, Unique, Latest, SurelyBlocks;
    var first := LatestExists(coarse, rows, h);
    var k := FineLatest(coarse, rows, first);
    LatestIsLatest(coarse, rows, k, h);
    FineApart(fine, rows, h, k);
  }

  lemma SureIsNotMasked(coarse: Gate, fine: Gate, rows: set<Assessment>)
    requires Coarser(coarse, fine) && SurelyBlocks(coarse, rows)
    ensures exists h :: BlocksItsGroup(fine, rows, h) && !Masked(coarse, fine, rows, h)
  {
    hide GroupOf, Coarser;
    var h :| h in rows && Latest(coarse, rows, h)
             && forall k | k in rows && Latest(coarse, rows, k) && GroupOf(coarse, k) == GroupOf(coarse, h) :: k.blocking;
    LatestFiner(coarse, fine, rows, h);
    hide Latest;
    assert BlocksItsGroup(fine, rows, h) && !Masked(coarse, fine, rows, h);
  }

  lemma NotSure(coarse: Gate, fine: Gate, rows: set<Assessment>)
    requires Coarser(coarse, fine) && Unique(fine, rows)
    ensures !SurelyBlocks(coarse, rows) <==> forall h | BlocksItsGroup(fine, rows, h) :: Masked(coarse, fine, rows, h)
  {
    hide SurelyBlocks, BlocksItsGroup, Masked, Unique, Coarser;
    if SurelyBlocks(coarse, rows) {
      SureIsNotMasked(coarse, fine, rows);
    } else {
      forall h | BlocksItsGroup(fine, rows, h) ensures Masked(coarse, fine, rows, h) {
        MaskedWhere(coarse, fine, rows, h);
      }
    }
  }

  /**
   * The coarser gate may let rows through, some way its query may go, if and only if every row
   * that blocks as latest of a fine group is masked by one of another fine group. Where there is
   * such a row, the finer gate refuses.
   */
  lemma {:induction false} MayLetThroughExactly(coarse: Gate, fine: Gate, rows: set<Assessment>)
    requires Coarser(coarse, fine) && Unique(fine, rows)
    ensures (exists kept: set<Assessment> :: Keeps(coarse, rows, kept) && !SomeBlocks(kept))
            <==> forall h | BlocksItsGroup(fine, rows, h) :: Masked(coarse, fine, rows, h)
  {
    hide Keeps, SomeBlocks, GroupOf, Coarser, Unique, BlocksItsGroup, Masked;
    SureExactly(coarse, rows);
    NotSure(coarse, fine, rows);
  }

  /** Any latest row of a group can be the one kept of it. */
  lemma OutcomeKeeping(g: Gate, rows: set<Assessment>, h: Assessment) returns (kept: set<Assessment>)
    requires Latest(g, rows, h)
    ensures Keeps(g, rows, kept) && h in kept
  {
    hide GroupOf, Latest;
    LatestIn(g, rows, h);
    var before := MildestOutcome(g, rows);
    kept := (set k | k in before && GroupOf(g, k) != GroupOf(g, h)) + {h};
    forall r | r in rows ensures KeptOf(g, kept, GroupOf(g, r)) {
      if GroupOf(g, r) == GroupOf(g, h) {
        assert h in kept;
      } else {
        assert KeptOf(g, before, GroupOf(g, r));
        var k :| k in before && GroupOf(g, k) == GroupOf(g, r);
        assert k in kept;
      }
    }
  }

  /** Some outcome of the query blocks exactly when some group has a latest that does. */
  lemma MayBlockExactly(g: Gate, rows: set<Assessment>)
    ensures (exists kept: set<Assessment> :: Keeps(g, rows, kept) && SomeBlocks(kept)) <==> SomeLatestBlocks(g, rows)
  {
    hide GroupOf, KeptOf, OncePerGroup;
    if SomeLatestBlocks(g, rows) {
      var h :| h in rows && Latest(g, rows, h) && h.blocking;
      var kept := OutcomeKeeping(g, rows, h);
      assert SomeBlocks(kept);
    }
    if kept: set<Assessment> :| Keeps(g, rows, kept) && SomeBlocks(kept) {
      var h :| h in kept && h.blocking;
      assert Latest(g, rows, h);
    }
  }

  lemma OvertakenOrLatest(coarse: Gate, fine: Gate, rows: set<Assessment>, h: Assessment)
    requires BlocksItsGroup(fine, rows, h)
    ensures Overtaken(coarse, fine, rows, h) <==> !Latest(coarse, rows, h)
  {
    hide GroupOf;
    if k :| k in rows && GroupOf(coarse, k) == GroupOf(coarse, h) && h.at < k.at {
      assert GroupOf(fine, k) != GroupOf(fine, h);
    }
  }

  /**
   * It lets them through whatever its query keeps if and only if every row that blocks as latest
   * of a fine group stands behind a later one of another fine group.
   */
  lemma {:induction false} LetsThroughExactly(coarse: Gate, fine: Gate, rows: set<Assessment>)
    requires Coarser(coarse, fine)
    ensures (forall kept: set<Assessment> | Keeps(coarse, rows, kept) :: !SomeBlocks(kept))
            <==> forall h | BlocksItsGroup(fine, rows, h) :: Overtaken(coarse, fine, rows, h)
  {
    MayBlockExactly(coarse, rows);
    hide GroupOf, Keeps, SomeBlocks, Overtaken, Latest, Coarser;
    forall h | BlocksItsGroup(fine, rows, h) ensures Overtaken(coarse, fine, rows, h) <==> !Latest(coarse, rows, h) {
      OvertakenOrLatest(coarse, fine, rows, h);
    }
    forall h | Latest(coarse, rows, h) && h.blocking ensures BlocksItsGroup(fine, rows, h) {
      LatestFiner(coarse, fine, rows, h);
      LatestIn(coarse, rows, h);
    }
    forall h | BlocksItsGroup(fine, rows, h) && Latest(coarse, rows, h) ensures SomeLatestBlocks(coarse, rows) {
    }
  }

  /** So the 0010 gate lets through what the 0039 gate refuses only where a row of another interval masks. */
  lemma {:induction false} DifferOnlyByMasking(c: Context, s: Signal, rows: set<Assessment>, by10: seq<Assessment>,
        by39: seq<Assessment>)
    requires Unique(Gate39, rows)
    requires InOrder(Gate10, Applicable(c, s, rows), by10) && InOrder(Gate39, Applicable(c, s, rows), by39)
    requires Refuses(s, DistinctOn(Gate39, by39)) && !Refuses(s, DistinctOn(Gate10, by10))
    ensures var a := Applicable(c, s, rows);
      && (exists h :: BlocksItsGroup(Gate39, a, h))
      && (forall h | BlocksItsGroup(Gate39, a, h) :: Masked(Gate10, Gate39, a, h))
  {
    hide InOrder, Keeps, Applicable, DistinctOn, SomeBlocks, Masked, Unique;
    Gate39Exactly(c, s, rows, by39);
    DistinctOnKeeps(Gate10, Applicable(c, s, rows), by10);
    ApplicableUnique(c, s, rows);
    MayLetThroughExactly(Gate10, Gate39, Applicable(c, s, rows));
    var h :| h in Applicable(c, s, rows) && Latest(Gate39, Applicable(c, s, rows), h) && h.blocking;
    assert BlocksItsGroup(Gate39, Applicable(c, s, rows), h);
  }

  /** A settlement price that blocks, and an open interest a moment later that is fine: nothing is refused. */
  lemma {:induction false} LaterKindMasks(c: Context, s: Signal, at: int)
    requires s.signal in c.proposals && c.proposals[s.signal].instrument in c.assetClass
    requires s.status == "VALIDATED" && at + 1 <= s.assessedAt
    ensures var settlement := Assessment(1, Instrument, c.proposals[s.signal].instrument, "1d", "SETTLEMENT_PRICE", at, true);
      var interest := Assessment(2, Instrument, c.proposals[s.signal].instrument, "1d", "OPEN_INTEREST", at + 1, false);
      var rows := {interest, settlement};
      && Unique(ByKind, rows) && SomeLatestBlocks(ByKind, Applicable(c, s, rows))
      && (forall kept: set<Assessment> | Keeps(Gate39, Applicable(c, s, rows), kept) :: !Refuses(s, kept))
  {
    var settlement := Assessment(1, Instrument, c.proposals[s.signal].instrument, "1d", "SETTLEMENT_PRICE", at, true);
    var interest := Assessment(2, Instrument, c.proposals[s.signal].instrument, "1d", "OPEN_INTEREST", at + 1, false);
    var rows := {interest, settlement};
    assert Applicable(c, s, rows) == rows;
    assert settlement.kind != interest.kind by { assert "SETTLEMENT_PRICE"[0] != "OPEN_INTEREST"[0]; }
    assert GroupOf(ByKind, settlement) != GroupOf(ByKind, interest);
    assert GroupOf(Gate39, settlement) == GroupOf(Gate39, interest);
    assert Unique(ByKind, rows) && Latest(ByKind, rows, settlement);
    assert Overtaken(Gate39, ByKind, rows, settlement);
    hide Applicable, Keeps, SomeBlocks, GroupOf, Overtaken, Latest, Unique;
    forall h | BlocksItsGroup(ByKind, rows, h) ensures Overtaken(Gate39, ByKind, rows, h) {
      assert h == settlement;
    }
    LetsThroughExactly(Gate39, ByKind, rows);
  }

  lemma PairInOrder(g: Gate, first: Assessment, second: Assessment)
    requires first != second && GroupOf(g, first) == GroupOf(g, second) && second.at <= first.at
    ensures InOrder(g, {first, second}, [first, second]) && DistinctOn(g, [first, second]) == {first}
  {
    hide GroupOf;
    var sorted := [first, second];
    assert FirstOfGroup(g, sorted, 0) && !FirstOfGroup(g, sorted, 1);
    assert sorted[0] in DistinctOn(g, sorted);
  }

  lemma ApartInOrder(g: Gate, first: Assessment, second: Assessment)
    requires GroupOf(g, first) != GroupOf(g, second)
    ensures InOrder(g, {first, second}, [first, second]) && DistinctOn(g, [first, second]) == {first, second}
  {
    hide GroupOf;
    TwoRuns(g, first, second);
    hide DistinctOn;
    assert first != second;
  }

  lemma TwoRuns(g: Gate, first: Assessment, second: Assessment)
    requires GroupOf(g, first) != GroupOf(g, second)
    ensures DistinctOn(g, [first, second]) == {first, second}
  {
    hide GroupOf;
    var sorted := [first, second];
    assert FirstOfGroup(g, sorted, 0) && FirstOfGroup(g, sorted, 1);
    hide FirstOfGroup;
    assert sorted[0] in DistinctOn(g, sorted) && sorted[1] in DistinctOn(g, sorted);
  }
}
