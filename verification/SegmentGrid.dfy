/**
 * The recorder's segment grid: how long each bounded segment runs, and the supervise loop
 * that runs segment after segment. Times are integer nanoseconds since the UTC epoch.
 */
module SegmentGrid {
  import opened Wrappers

  const SECOND := 1_000_000_000
  const MIN_SEGMENT := 60 * SECOND
  const DAY := 86_400 * SECOND

  datatype Invalid = SegmentSecondsBelowMinimum

  /** Python's `a % m` for a positive `m`: what is left between 0 and `m` after whole steps of `m`. */
  function Mod(a: int, m: int): (r: int)
    requires m > 0
    ensures 0 <= r < m
    decreases if a < 0 then -a else a
  {
    if a < 0 then (if a + m >= 0 then a + m else Mod(a + m, m))
    else if a < m then a
    else Mod(a - m, m)
  }

  /** `segment_bound_seconds` */
  function Bound(now: int, segment: int): Result<int, Invalid> {
    if segment < MIN_SEGMENT then Err(SegmentSecondsBelowMinimum)
    else
      var remaining := segment - Mod(now, segment);
      Ok(if remaining < MIN_SEGMENT then remaining + segment else remaining)
  }

  /** Where a segment started at this instant is planned to end. */
  function End(now: int, segment: int): int
    requires segment >= MIN_SEGMENT
  {
    now + Bound(now, segment).value
  }

  predicate OnGrid(t: int, segment: int)
    requires segment > 0
  {
    Mod(t, segment) == 0
  }

  // ---- One segment ---------------------------------------------------------

  lemma {:induction false} ModStep(a: int, m: int)
    requires m > 0
    ensures Mod(a + m, m) == Mod(a, m)
    decreases if a < 0 then -a else a
  {
    if a + m < 0 {
      ModStep(a + m, m);
    }
  }

  /** Taking away what is left over reaches the grid. */
  lemma {:induction false} ModDown(a: int, m: int)
    requires m > 0
    ensures Mod(a - Mod(a, m), m) == 0
    decreases if a < 0 then -a else a
  {
    if a < 0 {
      if a + m < 0 {
        ModDown(a + m, m);
        ModStep(a - Mod(a, m), m);
      } else {
        assert a - Mod(a, m) == -m;
      }
    } else if a >= m {
      ModDown(a - m, m);
      ModStep(a - m - Mod(a, m), m);
    }
  }

  /** Two grid instants are at least a step apart. */
  lemma {:induction false} NextOnGrid(a: int, b: int, m: int)
    requires m > 0 && Mod(a, m) == 0 && Mod(b, m) == 0 && a < b
    ensures a + m <= b
    decreases if a < 0 then -a else a
  {
    if a < 0 {
      ModStep(a, m);
      ModStep(b, m);
      if a + m < 0 {
        NextOnGrid(a + m, b + m, m);
      }
    } else if a >= m {
      ModStep(a - m, m);
      ModStep(b - m, m);
      NextOnGrid(a - m, b - m, m);
    }
  }

  lemma GridShift(a: int, m: int)
    requires m > 0
    ensures Mod(a + m, m) == Mod(a, m) && Mod(a - Mod(a, m), m) == 0
  {
    ModStep(a, m);
    ModDown(a, m);
  }

  /** The planned end is the first grid instant at least a minute away, and under a segment and a minute away. */
  lemma {:induction false} EndIsFirst(now: int, segment: int)
    requires segment >= MIN_SEGMENT
    ensures OnGrid(End(now, segment), segment)
    ensures MIN_SEGMENT <= Bound(now, segment).value < segment + MIN_SEGMENT
    ensures now + MIN_SEGMENT <= End(now, segment) < now + segment + MIN_SEGMENT
    ensures forall g | OnGrid(g, segment) && now + MIN_SEGMENT <= g :: End(now, segment) <= g
  {
    var down := now - Mod(now, segment);
    GridShift(now, segment);
    GridShift(down, segment);
    GridShift(down + segment, segment);
    forall g | OnGrid(g, segment) && now + MIN_SEGMENT <= g ensures End(now, segment) <= g {
      NextOnGrid(down, g, segment);
      if down + segment < now + MIN_SEGMENT {
        NextOnGrid(down + segment, g, segment);
      }
    }
  }

  /** Nothing else is: the first such instant determines the bound. */
  lemma {:induction false} EndIsOnly(now: int, segment: int, end: int)
    requires segment >= MIN_SEGMENT
    requires OnGrid(end, segment) && now + MIN_SEGMENT <= end
    requires forall g | OnGrid(g, segment) && now + MIN_SEGMENT <= g :: end <= g
    ensures Bound(now, segment) == Ok(end - now)
  {
    EndIsFirst(now, segment);
    assert OnGrid(End(now, segment), segment);
  }

  /** Inside an open segment lies at most one grid instant, and that within a minute of its start. */
  lemma {:induction false} OneGridLineAtMost(now: int, segment: int, g: int, h: int)
    requires segment >= MIN_SEGMENT
    requires OnGrid(g, segment) && now < g < End(now, segment)
    requires OnGrid(h, segment) && now < h < End(now, segment)
    ensures g == h && g < now + MIN_SEGMENT
  {
    EndIsFirst(now, segment);
    if g < h {
      NextOnGrid(g, h, segment);
    } else if h < g {
      NextOnGrid(h, g, segment);
    }
  }

  // ---- A UTC day -----------------------------------------------------------

  predicate Straddles(start: int, end: int, midnight: int) {
    Mod(midnight, DAY) == 0 && start < midnight < end
  }

  /** A whole number of segments more is left over the same. */
  lemma {:induction false} ModSteps(t: int, more: int, segment: int)
    requires segment > 0 && more >= 0 && Mod(more, segment) == 0
    ensures Mod(t + more, segment) == Mod(t, segment)
    decreases more
  {
    if more > 0 {
      ModSteps(t, more - segment, segment);
      ModStep(t + more - segment, segment);
    }
  }

  lemma {:induction false} DayOnGrid(t: int, segment: int)
    requires segment > 0 && Mod(DAY, segment) == 0 && Mod(t, DAY) == 0
    ensures Mod(t, segment) == 0
    decreases if t < 0 then -t else t
  {
    if t < 0 {
      ModSteps(t, DAY, segment);
      if t + DAY < 0 {
        DayOnGrid(t + DAY, segment);
      }
    } else if t >= DAY {
      DayOnGrid(t - DAY, segment);
      ModSteps(t - DAY, DAY, segment);
    }
  }

  /**
   * The grid of a segment length that divides the day has every midnight on it; even so a
   * segment straddles one, and does exactly when it starts in the last minute of a day.
   */
  lemma {:induction false} StraddlesExactly(now: int, segment: int)
    requires segment >= MIN_SEGMENT && Mod(DAY, segment) == 0
    ensures (exists m :: Straddles(now, End(now, segment), m)) <==> Mod(now, DAY) > DAY - MIN_SEGMENT
  {
    var next := now - Mod(now, DAY) + DAY;
    GridShift(now, DAY);
    GridShift(now - Mod(now, DAY), DAY);
    EndIsFirst(now, segment);
    DayOnGrid(next, segment);
    if Mod(now, DAY) > DAY - MIN_SEGMENT {
      assert now < next < now + MIN_SEGMENT <= End(now, segment);
      assert Straddles(now, End(now, segment), next);
    }
    if m :| Straddles(now, End(now, segment), m) {
      DayOnGrid(m, segment);
      OneGridLineAtMost(now, segment, m, m);
      FirstMidnight(now, m);
    }
  }

  lemma FirstMidnight(now: int, m: int)
    requires Mod(m, DAY) == 0 && now < m
    ensures now - Mod(now, DAY) + DAY <= m
  {
    GridShift(now, DAY);
    NextOnGrid(now - Mod(now, DAY), m, DAY);
  }

  /**
   * For any segment length: one straddles exactly when the last grid instant up to the next
   * midnight is less than a minute away.
   */
  lemma {:induction false} StraddlesForAnyLength(now: int, segment: int)
    requires segment >= MIN_SEGMENT
    ensures var next := now - Mod(now, DAY) + DAY;
      (exists m :: Straddles(now, End(now, segment), m)) <==> next - Mod(next, segment) < now + MIN_SEGMENT
  {
    hide End, Bound;
    var next := now - Mod(now, DAY) + DAY;
    GridShift(now, DAY);
    GridShift(now - Mod(now, DAY), DAY);
    GridShift(next, segment);
    EndIsFirst(now, segment);
    var last := next - Mod(next, segment);
    if last < now + MIN_SEGMENT {
      NextOnGrid(last, End(now, segment), segment);
      assert Straddles(now, End(now, segment), next);
    }
    if m :| Straddles(now, End(now, segment), m) {
      FirstMidnight(now, m);
      assert last >= now + MIN_SEGMENT ==> OnGrid(last, segment);
    }
  }

  /** An hourly segment started half a minute before midnight runs into the next day, on any day. */
  lemma {:induction false} HourlySegmentStraddles(midnight: int)
    requires Mod(midnight, DAY) == 0
    ensures var now := midnight - 30 * SECOND; Straddles(now, End(now, 3600 * SECOND), midnight)
  {
    EndIsFirst(midnight - 30 * SECOND, 3600 * SECOND);
  }

  // ---- Two segments --------------------------------------------------------

  /** A later start never plans an earlier end. */
  lemma EndsMonotone(now: int, later: int, segment: int)
    requires segment >= MIN_SEGMENT && now <= later
    ensures End(now, segment) <= End(later, segment)
  {
    EndIsFirst(now, segment);
    EndIsFirst(later, segment);
  }

  /**
   * After a segment that ran to its bound the next ends later; it takes the very next slot
   * exactly when the hand-off is short enough.
   */
  lemma {:induction false} HandOff(now: int, segment: int, next: int)
    requires segment >= MIN_SEGMENT && End(now, segment) <= next
    ensures End(now, segment) < End(next, segment)
    ensures End(next, segment) == End(now, segment) + segment <==> next - End(now, segment) <= segment - MIN_SEGMENT
  {
    hide End, Bound;
    var end := End(now, segment);
    EndIsFirst(now, segment);
    EndIsFirst(next, segment);
    GridShift(end, segment);
    assert OnGrid(end + segment, segment);
    NextOnGrid(end, End(next, segment), segment);
    hide OnGrid;
  }

  // ---- The supervise loop --------------------------------------------------

  datatype EndProof = OperatorBoundedStop | DiskBudgetStop | OtherEnd

  /** What the fleet does with one segment. */
  datatype Fleet = DiskBudgetError | Interrupted | Failed | Finished(proof: EndProof)

  /** One turn of the loop: the clock's reading, and the fleet's end. */
  datatype Turn = Turn(now: int, fleet: Fleet)

  datatype Planned = Planned(start: int, bound: Option<int>)

  const EXIT_DISK_FLOOR := 2

  /** How a turn ends the loop, if it does. */
  function ExitOf(segment: Option<int>, fleet: Fleet): Option<int> {
    match fleet
    case DiskBudgetError => Some(EXIT_DISK_FLOOR)
    case Interrupted => Some(0)
    case Failed => None
    case Finished(proof) =>
      if proof.DiskBudgetStop? then Some(EXIT_DISK_FLOOR)
      else if segment.None? || !proof.OperatorBoundedStop? then Some(0)
      else None
  }

  function PlanOf(segment: Option<int>, now: int): Planned {
    Planned(now, if segment.Some? && Bound(now, segment.value).Ok? then Some(Bound(now, segment.value).value) else None)
  }

  /** The segments planned while there are turns, and the exit code once it has ended. */
  function Supervised(segment: Option<int>, turns: seq<Turn>): (seq<Planned>, Option<int>) {
    if turns == [] then ([], None)
    else
      var exit := ExitOf(segment, turns[0].fleet);
      if exit.Some? then ([PlanOf(segment, turns[0].now)], exit)
      else
        var (rest, last) := Supervised(segment, turns[1..]);
        ([PlanOf(segment, turns[0].now)] + rest, last)
  }

  /** `_supervise_contracts`: a too-short segment is rejected before anything is recorded. */
  method Supervise(segment: Option<int>, first: int, turns: seq<Turn>)
    returns (planned: seq<Planned>, exit: Option<int>, invalid: bool)
    ensures invalid <==> segment.Some? && segment.value < MIN_SEGMENT
    ensures invalid ==> planned == [] && exit == None
    ensures !invalid ==> (planned, exit) == Supervised(segment, turns)
  {
    planned, exit, invalid := [], None, false;
    if segment.Some? {
      var early := Bound(first, segment.value);
      if early.Err? {
        return [], None, true;
      }
    }
    assert turns[0..] == turns;
    var i := 0;
    while i < |turns|
      invariant i <= |turns| && exit.None?
      invariant Supervised(segment, turns).0 == planned + Supervised(segment, turns[i..]).0
      invariant Supervised(segment, turns).1 == Supervised(segment, turns[i..]).1
    {
      assert turns[i..][1..] == turns[i + 1..];
      var bound := None;
      if segment.Some? {
        var b := Bound(turns[i].now, segment.value);
        bound := Some(b.value);
      }
      planned := planned + [Planned(turns[i].now, bound)];
      match turns[i].fleet {
        case DiskBudgetError =>
          return planned, Some(EXIT_DISK_FLOOR), false;
        case Interrupted =>
          return planned, Some(0), false;
        case Failed =>
        case Finished(proof) =>
          if proof.DiskBudgetStop? {
            return planned, Some(EXIT_DISK_FLOOR), false;
          }
          if segment.None? || !proof.OperatorBoundedStop? {
            return planned, Some(0), false;
          }
      }
      i := i + 1;
    }
    assert turns[i..] == [] && planned + [] == planned;
  }

  /** The end of a planned segment. */
  function PlannedEnd(p: Planned): int
    requires p.bound.Some?
  {
    p.start + p.bound.value
  }

  /** Every segment that ran to its bound, and none that did not, was followed no sooner than its end. */
  ghost predicate RanToBounds(planned: seq<Planned>) {
    && (forall i | 0 <= i < |planned| :: planned[i].bound.Some?)
    && (forall i | 0 <= i < |planned| - 1 :: PlannedEnd(planned[i]) <= planned[i + 1].start)
  }

  /** Each hand-off took at most a segment less a minute. */
  ghost predicate ShortHandOffs(planned: seq<Planned>, segment: int)
    requires RanToBounds(planned)
  {
    forall i | 0 <= i < |planned| - 1 :: planned[i + 1].start - PlannedEnd(planned[i]) <= segment - MIN_SEGMENT
  }

  lemma {:induction false} PlannedFromTurns(segment: int, turns: seq<Turn>, i: nat)
    requires segment >= MIN_SEGMENT && i < |Supervised(Some(segment), turns).0|
    ensures i < |turns| && Supervised(Some(segment), turns).0[i] == PlanOf(Some(segment), turns[i].now)
    ensures var p := Supervised(Some(segment), turns).0[i]; p.bound.Some? && PlannedEnd(p) == End(p.start, segment)
    decreases |turns|
  {
    if i > 0 {
      PlannedFromTurns(segment, turns[1..], i - 1);
    }
  }

  /**
   * Over a whole run, whatever fails in it: every planned end is on the grid, a minute or
   * more after its start and less than a segment and a minute; a later start never plans an
   * earlier end; where segments run to their bounds the ends strictly increase; and where the
   * hand-offs are short as well they are consecutive slots of the grid, none skipped.
   */
  lemma {:induction false} RunOnTheGrid(segment: int, turns: seq<Turn>)
    requires segment >= MIN_SEGMENT
    ensures var planned := Supervised(Some(segment), turns).0;
      && (forall i | 0 <= i < |planned| ::
            && planned[i].bound.Some? && OnGrid(PlannedEnd(planned[i]), segment)
            && MIN_SEGMENT <= planned[i].bound.value < segment + MIN_SEGMENT)
      && (forall i, j | 0 <= i < |planned| && 0 <= j < |planned| && planned[i].start <= planned[j].start ::
            PlannedEnd(planned[i]) <= PlannedEnd(planned[j]))
      && (RanToBounds(planned) ==> forall i, j | 0 <= i < j < |planned| :: PlannedEnd(planned[i]) < PlannedEnd(planned[j]))
      && (RanToBounds(planned) && ShortHandOffs(planned, segment) ==>
            forall i | 0 <= i < |planned| - 1 :: PlannedEnd(planned[i + 1]) == PlannedEnd(planned[i]) + segment)
  {
    var planned := Supervised(Some(segment), turns).0;
    forall i | 0 <= i < |planned|
      ensures planned[i].bound.Some? && PlannedEnd(planned[i]) == End(planned[i].start, segment)
      ensures OnGrid(PlannedEnd(planned[i]), segment) && MIN_SEGMENT <= planned[i].bound.value < segment + MIN_SEGMENT
    {
      PlannedFromTurns(segment, turns, i);
      EndIsFirst(planned[i].start, segment);
    }
    hide Supervised, End, Bound, OnGrid;
    forall i, j | 0 <= i < |planned| && 0 <= j < |planned| && planned[i].start <= planned[j].start
      ensures PlannedEnd(planned[i]) <= PlannedEnd(planned[j]) {
      EndsMonotone(planned[i].start, planned[j].start, segment);
    }
    if RanToBounds(planned) {
      forall i, j | 0 <= i < j < |planned| ensures PlannedEnd(planned[i]) < PlannedEnd(planned[j]) {
        EndsIncrease(planned, segment, i, j);
      }
      if ShortHandOffs(planned, segment) {
        forall i | 0 <= i < |planned| - 1 ensures PlannedEnd(planned[i + 1]) == PlannedEnd(planned[i]) + segment {
          HandOff(planned[i].start, segment, planned[i + 1].start);
        }
      }
    }
  }

  lemma {:induction false} EndsIncrease(planned: seq<Planned>, segment: int, i: nat, j: nat)
    requires segment >= MIN_SEGMENT && RanToBounds(planned) && i < j < |planned|
    requires forall k | 0 <= k < |planned| :: PlannedEnd(planned[k]) == End(planned[k].start, segment)
    ensures PlannedEnd(planned[i]) < PlannedEnd(planned[j])
    decreases j
  {
    hide End;
    HandOff(planned[j - 1].start, segment, planned[j].start);
    if i < j - 1 {
      EndsIncrease(planned, segment, i, j - 1);
    }
  }

  /** The disk floor was met, by an error or by the fleet's own stop. */
  predicate MetDiskFloor(t: Turn) {
    t.fleet == DiskBudgetError || t.fleet == Finished(DiskBudgetStop)
  }

  /** A failed fleet is started again, and so is one that ran a bounded segment to its end. */
  predicate GoesOn(segment: Option<int>, t: Turn) {
    t.fleet == Failed || (segment != None && t.fleet == Finished(OperatorBoundedStop))
  }

  /**
   * The loop goes on behind a failure and behind a segment that ran to its bound, and behind
   * nothing else: it plans one segment for each turn up to the first other one, which gives the
   * exit code, 2 where the disk floor was met and 0 otherwise.
   */
  lemma {:induction false} ExitMeans(segment: Option<int>, turns: seq<Turn>)
    ensures var (planned, exit) := Supervised(segment, turns);
      && |planned| <= |turns|
      && (forall i | 0 <= i < |planned| :: planned[i].start == turns[i].now && (segment == None ==> planned[i].bound == None))
      && (exit == None <==> forall i | 0 <= i < |turns| :: GoesOn(segment, turns[i]))
      && (exit == None ==> |planned| == |turns|)
      && (exit != None ==> planned != [] && !GoesOn(segment, turns[|planned| - 1])
                           && (forall i | 0 <= i < |planned| - 1 :: GoesOn(segment, turns[i]))
                           && exit == Some(if MetDiskFloor(turns[|planned| - 1]) then 2 else 0))
    decreases |turns|
  {
    if turns != [] {
      assert ExitOf(segment, turns[0].fleet)
             == if GoesOn(segment, turns[0]) then None else Some(if MetDiskFloor(turns[0]) then 2 else 0);
      assert forall i | 1 <= i < |turns| :: turns[i] == turns[1..][i - 1];
      ExitMeans(segment, turns[1..]);
      hide ExitOf, GoesOn, MetDiskFloor, Bound;
    }
  }
}
