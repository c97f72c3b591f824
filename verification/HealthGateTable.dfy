/**
 * The refusals of the data-health gate, column by column: which assessments concern a
 * signal, and when its validation is refused.
 */
module HealthGateTable {
  import opened HealthGate

  /** The assessment is of everything, or of the signal's asset class, strategy or instrument. */
  predicate Concerns(c: Context, s: Signal, h: Assessment) {
    && s.signal in c.proposals && c.proposals[s.signal].instrument in c.assetClass
    && var p := c.proposals[s.signal];
       || (h.scope == Global && h.value == "*")
       || (h.scope == AssetClass && h.value == c.assetClass[p.instrument])
       || (h.scope == Strategy && h.value == p.strategy)
       || (h.scope == Instrument && h.value == p.instrument)
  }

  /** It concerns the signal and was made by the time the signal was assessed. */
  predicate InView(c: Context, s: Signal, rows: set<Assessment>, h: Assessment) {
    h in rows && h.at <= s.assessedAt && Concerns(c, s, h)
  }

  predicate SameSeries(h: Assessment, k: Assessment) {
    h.scope == k.scope && h.value == k.value && h.interval == k.interval
  }

  predicate SameSubject(h: Assessment, k: Assessment) {
    h.scope == k.scope && h.value == k.value
  }

  lemma {:induction false} InViewExactly(c: Context, s: Signal, rows: set<Assessment>, h: Assessment)
    ensures h in Applicable(c, s, rows) <==> InView(c, s, rows, h)
  {
    match h.scope {
      case Global =>
      case AssetClass =>
      case Strategy =>
      case Instrument =>
    }
  }

  /** 0039: some row in view blocks, and none in view of its scope, value and interval is later. */
  ghost predicate SeriesBlocks(c: Context, s: Signal, rows: set<Assessment>) {
    exists h :: InView(c, s, rows, h) && h.blocking
                && forall k | InView(c, s, rows, k) && SameSeries(h, k) :: k.at <= h.at
  }

  /** 0010: some row in view blocks, and none in view of its scope and value is later. */
  ghost predicate SubjectBlocks(c: Context, s: Signal, rows: set<Assessment>) {
    exists h :: InView(c, s, rows, h) && h.blocking
                && forall k | InView(c, s, rows, k) && SameSubject(h, k) :: k.at <= h.at
  }

  lemma LatestInView(g: Gate, c: Context, s: Signal, rows: set<Assessment>, h: Assessment)
    ensures h in Applicable(c, s, rows) && Latest(g, Applicable(c, s, rows), h) <==>
            InView(c, s, rows, h) && forall k | InView(c, s, rows, k) && GroupOf(g, k) == GroupOf(g, h) :: k.at <= h.at
  {
    forall k ensures k in Applicable(c, s, rows) <==> InView(c, s, rows, k) {
      InViewExactly(c, s, rows, k);
    }
    hide Applicable, InView, GroupOf;
  }

  /**
   * Under 0039's key a validation is refused exactly when the signal is VALIDATED and some
   * assessment in its view blocks with no later one of the same scope, value and interval.
   */
  lemma {:induction false} Refuses39Exactly(c: Context, s: Signal, rows: set<Assessment>, sorted: seq<Assessment>)
    requires Unique(Gate39, rows) && InOrder(Gate39, Applicable(c, s, rows), sorted)
    ensures Refuses(s, DistinctOn(Gate39, sorted)) <==> s.status == "VALIDATED" && SeriesBlocks(c, s, rows)
  {
    Gate39Exactly(c, s, rows, sorted);
    BlocksInView(Gate39, c, s, rows);
    hide Unique, InOrder, DistinctOn, Refuses, InView, Applicable, Latest, SomeLatestBlocks;
    assert forall h, k :: GroupOf(Gate39, k) == GroupOf(Gate39, h) <==> SameSeries(h, k);
  }

  lemma BlocksInView(g: Gate, c: Context, s: Signal, rows: set<Assessment>)
    ensures SomeLatestBlocks(g, Applicable(c, s, rows)) <==>
            exists h :: InView(c, s, rows, h) && h.blocking
                        && forall k | InView(c, s, rows, k) && GroupOf(g, k) == GroupOf(g, h) :: k.at <= h.at
  {
    forall h ensures h in Applicable(c, s, rows) && Latest(g, Applicable(c, s, rows), h) <==>
            InView(c, s, rows, h) && forall k | InView(c, s, rows, k) && GroupOf(g, k) == GroupOf(g, h) :: k.at <= h.at {
      LatestInView(g, c, s, rows, h);
    }
    hide Applicable, InView, GroupOf, Latest;
  }

  /**
   * The 0010 gate can refuse, some way its query may go, exactly when the signal is VALIDATED and
   * some assessment in its view blocks with no later one of the same scope and value.
   */
  lemma {:induction false} MayRefuse10Exactly(c: Context, s: Signal, rows: set<Assessment>)
    ensures (exists kept: set<Assessment> :: Keeps(Gate10, Applicable(c, s, rows), kept) && Refuses(s, kept)) <==>
            s.status == "VALIDATED" && SubjectBlocks(c, s, rows)
  {
    MayBlockExactly(Gate10, Applicable(c, s, rows));
    BlocksInView(Gate10, c, s, rows);
    hide Keeps, InView, Applicable, Latest, SomeLatestBlocks, SomeBlocks;
    assert forall h, k :: GroupOf(Gate10, k) == GroupOf(Gate10, h) <==> SameSubject(h, k);
  }

  /** One blocking assessment of any of the four scopes refuses the signal it concerns, and no other; it takes its time to count. */
  lemma {:induction false} OneBlocks(c: Context, s: Signal, h: Assessment)
    requires h.blocking && s.status == "VALIDATED"
    ensures SeriesBlocks(c, s, {h}) <==> h.at <= s.assessedAt && Concerns(c, s, h)
    ensures SubjectBlocks(c, s, {h}) <==> h.at <= s.assessedAt && Concerns(c, s, h)
  {
    hide Concerns;
  }
}
