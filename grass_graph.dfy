/**
 * The grass graph: thirty day columns ending today, each a stack of ten
 * blocks lit up to the day's value, a shimmer on the top block when the
 * value overflows, and a tooltip on the hovered day.
 */
module GrassGraph {
  import opened Wrappers
  import opened JsNumber
  import opened Schema
  import opened DashboardClient

  /** `MAX_BLOCKS`. */
  const MaxBlocks: nat := 10

  /** The number of days drawn. */
  const DayCount: nat := 30

  /**
   * `days`: `subDays(today, 29 - i)` for i in 0..29, as day numbers.  Here
   * `today` is the local-time day the columns are formatted in.
   */
  function Days(today: int): seq<int>
  {
    seq(DayCount, i requires 0 <= i < DayCount => today - (DayCount - 1 - i))
  }

  /** Thirty consecutive days, oldest first, ending today: a day is drawn iff it is one of the last thirty. */
  lemma DaysMeaning(today: int)
    ensures |Days(today)| == DayCount && Days(today)[DayCount - 1] == today
    ensures forall i :: 0 < i < DayCount ==> Days(today)[i] == Days(today)[i - 1] + 1
    ensures forall d :: d in Days(today) <==> today - (DayCount - 1) <= d <= today
  {
    var days := Days(today);
    forall d | today - (DayCount - 1) <= d <= today ensures d in days {
      assert days[d - today + DayCount - 1] == d;
    }
  }

  /** `getValueForDay`: the value of the first entry of that day (`find`), or 0. */
  function ValueForDay(data: seq<Point>, day: int): (v: real)
    ensures !HasDate(data, day) ==> v == 0.0
    ensures HasDate(data, day) ==>
              exists j :: 0 <= j < |data| && data[j].date == day && v == data[j].value
                          && forall i :: 0 <= i < j ==> data[i].date != day
  {
    match IndexOfDate(data, day)
    case Some(j) => data[j].value
    case None => 0.0
  }

  datatype Blocks = Blocks(blocks: real, overflow: real)

  /** `getBlocks`: the lit blocks capped at ten, and what lies beyond. */
  function GetBlocks(value: real): (b: Blocks)
    ensures b.blocks <= MaxBlocks as real && b.overflow >= 0.0
    ensures value <= MaxBlocks as real ==> b.blocks == value && b.overflow == 0.0
    ensures value > MaxBlocks as real ==> b.blocks == MaxBlocks as real && b.overflow == value - MaxBlocks as real
    ensures value >= 0.0 ==> b.blocks + b.overflow == value
  {
    Blocks(Min(value, MaxBlocks as real), if value > MaxBlocks as real then value - MaxBlocks as real else 0.0)
  }

  /** `isActive`. */
  predicate BlockActive(b: Blocks, i: nat)
  {
    (i as real) < b.blocks
  }

  /** The shimmer: an active block that is the top one while there is overflow. */
  predicate Shimmer(b: Blocks, i: nat)
  {
    BlockActive(b, i) && b.overflow > 0.0 && i == MaxBlocks - 1
  }

  /**
   * Of the ten blocks, block i is lit iff i is below the day's value, so the
   * lit blocks are a bottom run; the shimmer shows on the top block exactly
   * when the value exceeds ten, and nowhere else.
   */
  lemma BlockRules(value: real)
    ensures forall i: nat :: i < MaxBlocks ==> (BlockActive(GetBlocks(value), i) <==> (i as real) < value)
    ensures forall i: nat, j: nat :: i <= j < MaxBlocks && BlockActive(GetBlocks(value), j) ==> BlockActive(GetBlocks(value), i)
    ensures forall i: nat :: i < MaxBlocks ==> (Shimmer(GetBlocks(value), i) <==> i == MaxBlocks - 1 && value > MaxBlocks as real)
  {
  }

  /** The tooltip is drawn on the hovered day when its value is positive. */
  predicate ShowsTooltip(hovered: Option<int>, day: int, value: real)
  {
    hovered == Some(day) && value > 0.0
  }

  /** One rendered column. */
  datatype Column = Column(day: int, value: real, active: seq<bool>, shimmer: seq<bool>, tooltip: bool)

  function ColumnFor(data: seq<Point>, day: int, hovered: Option<int>): Column
  {
    var value := ValueForDay(data, day);
    var b := GetBlocks(value);
    Column(day, value,
           seq(MaxBlocks, i requires 0 <= i < MaxBlocks => BlockActive(b, i)),
           seq(MaxBlocks, i requires 0 <= i < MaxBlocks => Shimmer(b, i)),
           ShowsTooltip(hovered, day, value))
  }

  /** `days.map(...)`: the columns of the graph. */
  function Columns(data: seq<Point>, today: int, hovered: Option<int>): seq<Column>
  {
    var days := Days(today);
    seq(DayCount, k requires 0 <= k < DayCount => ColumnFor(data, days[k], hovered))
  }

  /**
   * Thirty columns of ten blocks, each block lit and shimmering as the block
   * rules say for the day's value; the tooltip shows exactly on the hovered
   * day when its value is positive, so on at most one column.
   */
  lemma ColumnsMeaning(data: seq<Point>, today: int, hovered: Option<int>)
    ensures var cols := Columns(data, today, hovered);
            && |cols| == DayCount
            && (forall k :: 0 <= k < DayCount ==> cols[k].day == today - (DayCount - 1 - k))
            && (forall k :: 0 <= k < DayCount ==> |cols[k].active| == MaxBlocks && |cols[k].shimmer| == MaxBlocks)
            && (forall k :: 0 <= k < DayCount ==> cols[k].value == ValueForDay(data, cols[k].day))
            && (forall k, i :: 0 <= k < DayCount && 0 <= i < MaxBlocks ==>
                  cols[k].active[i] == BlockActive(GetBlocks(cols[k].value), i)
                  && cols[k].shimmer[i] == Shimmer(GetBlocks(cols[k].value), i))
            && (forall k :: 0 <= k < DayCount ==>
                  (cols[k].tooltip <==> hovered == Some(cols[k].day) && cols[k].value > 0.0))
            && (forall k, m :: 0 <= k < m < DayCount ==> !(cols[k].tooltip && cols[m].tooltip))
  {
  }

  // ------------------------------------------------- the series the graphs show

  /** On the commits graph a day reads as the sum of `commit_count` over its kept rows, zero when there are none. */
  lemma CommitGraphValue(rows: seq<CommitRow>, inc: Include, d: int)
    ensures ValueForDay(Accumulate(CommitPoints(rows, inc)), d) == KeptCount(rows, inc, d) as real
  {
    var points := CommitPoints(rows, inc);
    var data := Accumulate(points);
    AccumulateTotals(points);
    if !HasDate(data, d) {
      SumOnAbsent(points, d);
    }
  }

  /**
   * On the work graph a day other than today reads as its summed minutes in
   * blocks; today reads as the stored focus time in blocks when today has
   * sessions or that time is positive, and zero otherwise.
   */
  lemma WorkGraphValue(sessions: seq<WorkRow>, unit: Option<string>, today: int, totalFocusToday: int, d: int)
    ensures var u := UnitMinutes(unit);
            var tb := TodayBlocks(totalFocusToday, u);
            var data := WithToday(Scaled(Accumulate(MinutePoints(sessions)), u), today, tb);
            && (d != today ==> ValueForDay(data, d) == SumOn(MinutePoints(sessions), d) / u as real)
            && (d == today ==> ValueForDay(data, d) == if HasDate(MinutePoints(sessions), today) || tb > 0.0 then tb else 0.0)
  {
    var u := UnitMinutes(unit);
    WorkDataMeaning(sessions, unit, today, totalFocusToday);
    if !HasDate(MinutePoints(sessions), d) {
      SumOnAbsent(MinutePoints(sessions), d);
    }
  }
}
