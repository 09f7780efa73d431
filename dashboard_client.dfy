/**
 * The dashboard's client-side derivations: the "last synced" text, the
 * per-day series fed to the three grass graphs, and the paid-tier flag.
 */
module DashboardClient {
  import opened Wrappers
  import opened Schema
  import opened Text

  // ------------------------------------------------------ formatLastSynced

  /**
   * `formatLastSynced`. `timestamp` is None for null or "", `Some(None)` for a
   * text that does not parse (every comparison with NaN is false);
   * `neverSynced` is the translated "never synced" text.
   */
  function FormatLastSynced(timestamp: Option<Option<int>>, now: int, neverSynced: string): string
  {
    if timestamp.None? then neverSynced
    else if timestamp.value.None? then "NaNd ago"
    else
      var diffMins := (now - timestamp.value.value) / MsPerMinute;
      if diffMins < 1 then "Just now"
      else if diffMins < 60 then IntToString(diffMins) + "m ago"
      else
        var diffHours := diffMins / 60;
        if diffHours < 24 then IntToString(diffHours) + "h ago"
        else IntToString(diffHours / 24) + "d ago"
  }

  /** A multiple of a positive divisor is either zero or at least the divisor away from zero. */
  lemma MultipleGap(d: int, k: int)
    requires d > 0
    ensures k >= 1 ==> d * k >= d
    ensures k <= -1 ==> d * k <= -d
  {
    if k >= 1 {
      assert d * k == d + d * (k - 1);
    } else if k <= -1 {
      assert d * k == -d + d * (k + 1);
    }
  }

  lemma DivUnique(a: int, d: int, q: int, r: int)
    requires d > 0 && 0 <= r < d && a == d * q + r
    ensures a / d == q
  {
    var k := a / d - q;
    assert d * k == d * (a / d) - d * q;
    MultipleGap(d, k);
  }

  /** Flooring twice is flooring once by the product (both are floors for positive divisors). */
  lemma DivDiv(a: int, b: int, c: int)
    requires b > 0 && c > 0
    ensures (a / b) / c == a / (b * c)
  {
    var q, r := a / b, a % b;
    var q2, r2 := q / c, q % c;
    assert a == b * q + r;
    assert q == c * q2 + r2;
    MulSplit(b, c, q2, r2);
    assert 0 <= b * r2 + r < b * c by {
      MulBelow(b, r2, c);
    }
    DivUnique(a, b * c, q2, b * r2 + r);
  }

  lemma MulSplit(b: int, c: int, q2: int, r2: int)
    ensures b * (c * q2 + r2) == (b * c) * q2 + b * r2
  {
    assert b * (c * q2 + r2) == b * (c * q2) + b * r2;
  }

  lemma MulBelow(b: int, r2: int, c: int)
    requires b > 0 && 0 <= r2 < c
    ensures 0 <= b * r2 <= b * c - b
  {
    assert b * r2 <= b * (c - 1);
  }

  /**
   * A null or empty timestamp reads as the "never synced" text, an unparsable
   * one as `NaNd ago`; otherwise the four bands of the text, stated on the
   * millisecond difference directly.
   */
  lemma LastSyncedBands(t: int, now: int, neverSynced: string)
    ensures FormatLastSynced(None, now, neverSynced) == neverSynced
    ensures FormatLastSynced(Some(None), now, neverSynced) == "NaNd ago"
    ensures var diff := now - t;
            var s := FormatLastSynced(Some(Some(t)), now, neverSynced);
            && (diff < MsPerMinute ==> s == "Just now")
            && (MsPerMinute <= diff < MsPerHour ==> s == IntToString(diff / MsPerMinute) + "m ago")
            && (MsPerHour <= diff < MsPerDay ==> s == IntToString(diff / MsPerHour) + "h ago")
            && (MsPerDay <= diff ==> s == IntToString(diff / MsPerDay) + "d ago")
  {
    var diff := now - t;
    DivDiv(diff, MsPerMinute, 60);
    DivDiv(diff, MsPerHour, 24);
    DivDiv(diff / MsPerMinute, 60, 24);
    assert MsPerHour == MsPerMinute * 60 && MsPerDay == MsPerHour * 24;
    if diff < MsPerMinute {
      assert diff / MsPerMinute < 1;
    }
    if MsPerMinute <= diff < MsPerHour {
      assert 1 <= diff / MsPerMinute < 60 by {
        DivUnique(MsPerMinute, MsPerMinute, 1, 0);
        DivUnique(MsPerHour, MsPerMinute, 60, 0);
        DivMonotonic(MsPerMinute, diff, MsPerMinute);
        DivMonotonic(diff, MsPerHour - 1, MsPerMinute);
        DivUnique(MsPerHour - 1, MsPerMinute, 59, MsPerMinute - 1);
      }
    }
    if MsPerHour <= diff {
      assert diff / MsPerMinute >= 60 by {
        DivUnique(MsPerHour, MsPerMinute, 60, 0);
        DivMonotonic(MsPerHour, diff, MsPerMinute);
      }
      if diff < MsPerDay {
        assert diff / MsPerHour < 24 by {
          DivMonotonic(diff, MsPerDay - 1, MsPerHour);
          DivUnique(MsPerDay - 1, MsPerHour, 23, MsPerHour - 1);
        }
      } else {
        assert diff / MsPerHour >= 24 by {
          DivUnique(MsPerDay, MsPerHour, 24, 0);
          DivMonotonic(MsPerDay, diff, MsPerHour);
        }
      }
    }
  }

  lemma DivMonotonic(a: int, b: int, d: int)
    requires a <= b && d > 0
    ensures a / d <= b / d
  {
    var k := a / d - b / d;
    assert d * k == d * (a / d) - d * (b / d);
    MultipleGap(d, k);
  }

  // -------------------------------------------------------- per-day series

  /** One point of a graph series: a day and its value in blocks (or commits). */
  datatype Point = Point(date: int, value: real)

  function IndexOfDate(acc: seq<Point>, d: int): (r: Option<nat>)
    ensures r.Some? ==> r.value < |acc| && acc[r.value].date == d
    ensures r.None? ==> forall j :: 0 <= j < |acc| ==> acc[j].date != d
    ensures r.Some? ==> forall j :: 0 <= j < r.value ==> acc[j].date != d
    decreases |acc|
  {
    if acc == [] then None
    else if acc[0].date == d then Some(0)
    else match IndexOfDate(acc[1..], d)
      case Some(j) => Some(j + 1)
      case None => None
  }

  /** One step of the reduce: add to the entry of that day, or push a new one. */
  function AddTo(acc: seq<Point>, e: Point): seq<Point>
  {
    match IndexOfDate(acc, e.date)
    case Some(j) => acc[j := Point(e.date, acc[j].value + e.value)]
    case None => acc + [e]
  }

  /** The accumulator after reducing `entries`. */
  function Accumulate(entries: seq<Point>): seq<Point>
    decreases |entries|
  {
    if entries == [] then [] else AddTo(Accumulate(entries[..|entries| - 1]), entries[|entries| - 1])
  }

  /** The total of the entries on day `d`. */
  function SumOn(entries: seq<Point>, d: int): real
    decreases |entries|
  {
    if entries == [] then 0.0
    else SumOn(entries[..|entries| - 1], d) + (if entries[|entries| - 1].date == d then entries[|entries| - 1].value else 0.0)
  }

  predicate HasDate(acc: seq<Point>, d: int)
  {
    exists j :: 0 <= j < |acc| && acc[j].date == d
  }

  predicate UniqueDates(acc: seq<Point>)
  {
    forall i, j :: 0 <= i < j < |acc| ==> acc[i].date != acc[j].date
  }

  /** The accumulator lists each day of the entries once, with that day's total. */
  ghost predicate Totals(acc: seq<Point>, entries: seq<Point>)
  {
    && UniqueDates(acc)
    && (forall j :: 0 <= j < |acc| ==> acc[j].value == SumOn(entries, acc[j].date))
    && (forall d :: HasDate(acc, d) <==> HasDate(entries, d))
  }

  lemma SumOnSnoc(entries: seq<Point>, e: Point, d: int)
    ensures SumOn(entries + [e], d) == SumOn(entries, d) + (if e.date == d then e.value else 0.0)
  {
    assert (entries + [e])[..|entries|] == entries;
  }

  lemma {:induction false} SumOnAbsent(entries: seq<Point>, d: int)
    requires !HasDate(entries, d)
    ensures SumOn(entries, d) == 0.0
    decreases |entries|
  {
    if entries != [] {
      var init := entries[..|entries| - 1];
      forall j | 0 <= j < |init| ensures init[j].date != d {
        assert init[j] == entries[j];
      }
      SumOnAbsent(init, d);
    }
  }

  lemma AddToKeepsTotals(acc: seq<Point>, entries: seq<Point>, e: Point)
    requires Totals(acc, entries)
    ensures Totals(AddTo(acc, e), entries + [e])
  {
    var entries' := entries + [e];
    var acc' := AddTo(acc, e);
    assert entries'[..|entries|] == entries;
    forall d ensures HasDate(entries', d) <==> HasDate(entries, d) || d == e.date {
      if HasDate(entries', d) {
        var j :| 0 <= j < |entries'| && entries'[j].date == d;
        if j < |entries| {
          assert entries[j].date == d;
        }
      }
      if HasDate(entries, d) {
        var j :| 0 <= j < |entries| && entries[j].date == d;
        assert entries'[j].date == d;
      }
      if d == e.date {
        assert entries'[|entries|].date == d;
      }
    }
    match IndexOfDate(acc, e.date)
    case Some(i) =>
      assert acc' == acc[i := Point(e.date, acc[i].value + e.value)];
      forall j | 0 <= j < |acc'| ensures acc'[j].value == SumOn(entries', acc'[j].date) {
        SumOnSnoc(entries, e, acc'[j].date);
      }
      forall d ensures HasDate(acc', d) <==> HasDate(acc, d) {
        if HasDate(acc', d) {
          var j :| 0 <= j < |acc'| && acc'[j].date == d;
          assert acc[j].date == d;
        }
        if HasDate(acc, d) {
          var j :| 0 <= j < |acc| && acc[j].date == d;
          assert acc'[j].date == d;
        }
      }
      assert HasDate(acc, e.date) by {
        assert acc[i].date == e.date;
      }
    case None =>
      assert acc' == acc + [e];
      assert !HasDate(acc, e.date);
      SumOnAbsent(entries, e.date);
      forall j | 0 <= j < |acc'| ensures acc'[j].value == SumOn(entries', acc'[j].date) {
        SumOnSnoc(entries, e, acc'[j].date);
      }
      forall d ensures HasDate(acc', d) <==> HasDate(acc, d) || d == e.date {
        if HasDate(acc', d) {
          var j :| 0 <= j < |acc'| && acc'[j].date == d;
          if j < |acc| {
            assert acc[j].date == d;
          }
        }
        if HasDate(acc, d) {
          var j :| 0 <= j < |acc| && acc[j].date == d;
          assert acc'[j].date == d;
        }
        if d == e.date {
          assert acc'[|acc|].date == d;
        }
      }
  }

  /** Reducing gives one point per day that occurs, carrying that day's total. */
  lemma {:induction false} AccumulateTotals(entries: seq<Point>)
    ensures Totals(Accumulate(entries), entries)
    decreases |entries|
  {
    if entries != [] {
      var init := entries[..|entries| - 1];
      AccumulateTotals(init);
      assert init + [entries[|entries| - 1]] == entries;
      AddToKeepsTotals(Accumulate(init), init, entries[|entries| - 1]);
    }
  }

  /** The `reduce` with `acc.find` and `existing.value +=`, and the `forEach` filling a `Map`. */
  method Reduce(entries: seq<Point>) returns (acc: seq<Point>)
    ensures acc == Accumulate(entries)
  {
    acc := [];
    for i := 0 to |entries|
      invariant acc == Accumulate(entries[..i])
    {
      assert entries[..i + 1][..i] == entries[..i];
      var e := entries[i];
      var existing := IndexOfDate(acc, e.date);
      if existing.Some? {
        acc := acc[existing.value := Point(e.date, acc[existing.value].value + e.value)];
      } else {
        acc := acc + [e];
      }
    }
    assert entries[..|entries|] == entries;
  }

  // ---------------------------------------------------------------- githubData

  /** The three "include" settings. */
  datatype Include = Include(squash: bool, merge: bool, bot: bool)

  /** A row is dropped when one of its flags is set while the matching setting is off. */
  predicate KeepCommit(r: CommitRow, inc: Include)
  {
    !(!inc.squash && r.isSquash) && !(!inc.merge && r.isMerge) && !(!inc.bot && r.isBot)
  }

  function CommitPoints(rows: seq<CommitRow>, inc: Include): (ps: seq<Point>)
    ensures forall d :: SumOn(ps, d) == KeptCount(rows, inc, d) as real
    decreases |rows|
  {
    if rows == [] then []
    else
      var init := CommitPoints(rows[..|rows| - 1], inc);
      var r := rows[|rows| - 1];
      var ps := if KeepCommit(r, inc) then init + [Point(r.date, r.commitCount as real)] else init;
      assert forall d :: SumOn(ps, d) == KeptCount(rows, inc, d) as real by {
        forall d ensures SumOn(ps, d) == KeptCount(rows, inc, d) as real {
          if KeepCommit(r, inc) {
            SumOnSnoc(init, Point(r.date, r.commitCount as real), d);
          }
        }
      }
      ps
  }

  /** The commits of day `d` over the kept rows. */
  function KeptCount(rows: seq<CommitRow>, inc: Include, d: int): nat
    decreases |rows|
  {
    if rows == [] then 0
    else KeptCount(rows[..|rows| - 1], inc, d)
         + (var r := rows[|rows| - 1]; if KeepCommit(r, inc) && r.date == d then r.commitCount else 0)
  }

  /** `githubData`: one point per day, the sum of `commit_count` over that day's kept rows. */
  method GithubData(rows: seq<CommitRow>, inc: Include) returns (data: seq<Point>)
    ensures data == Accumulate(CommitPoints(rows, inc))
    ensures UniqueDates(data)
    ensures forall j :: 0 <= j < |data| ==> data[j].value == KeptCount(rows, inc, data[j].date) as real
  {
    var points := CommitPoints(rows, inc);
    data := Reduce(points);
    AccumulateTotals(points);
  }

  // --------------------------------------------------------------- block units

  /** `'15min'` is 15, `'30min'` is 30, anything else (the store has no such field, so undefined) 60. */
  function UnitMinutes(unit: Option<string>): (m: int)
    ensures m == 15 || m == 30 || m == 60
    ensures m == 15 <==> unit == Some("15min")
    ensures m == 30 <==> unit == Some("30min")
  {
    if unit == Some("15min") then 15 else if unit == Some("30min") then 30 else 60
  }

  /** Spotify's unit in milliseconds, the same choice of 15, 30 or 60 minutes. */
  function UnitMs(unit: Option<string>): (ms: int)
    ensures ms == UnitMinutes(unit) * MsPerMinute
  {
    if unit == Some("15min") then 15 * 60 * 1000 else if unit == Some("30min") then 30 * 60 * 1000 else 60 * 60 * 1000
  }

  // --------------------------------------------------------------- spotifyData

  function SpotifyPoints(sessions: seq<SpotifyRow>, unitMs: int): (ps: seq<Point>)
    requires unitMs > 0
    ensures |ps| == |sessions|
    ensures forall k :: 0 <= k < |sessions| ==> ps[k] == Point(sessions[k].date, sessions[k].durationMs as real / unitMs as real)
  {
    seq(|sessions|, k requires 0 <= k < |sessions| => Point(sessions[k].date, sessions[k].durationMs as real / unitMs as real))
  }

  /** `spotifyData`: per day, the listened milliseconds in blocks of the unit. */
  method SpotifyData(sessions: seq<SpotifyRow>, unit: Option<string>) returns (data: seq<Point>)
    ensures data == Accumulate(SpotifyPoints(sessions, UnitMs(unit)))
  {
    data := Reduce(SpotifyPoints(sessions, UnitMs(unit)));
  }

  // ------------------------------------------------------------------ workData

  function MinutePoints(sessions: seq<WorkRow>): (ps: seq<Point>)
    ensures |ps| == |sessions|
    ensures forall k :: 0 <= k < |sessions| ==> ps[k] == Point(sessions[k].date, sessions[k].durationMinutes as real)
  {
    seq(|sessions|, k requires 0 <= k < |sessions| => Point(sessions[k].date, sessions[k].durationMinutes as real))
  }

  function Scaled(ps: seq<Point>, unit: int): (r: seq<Point>)
    requires unit > 0
    ensures |r| == |ps|
    ensures forall k :: 0 <= k < |ps| ==> r[k] == Point(ps[k].date, ps[k].value / unit as real)
  {
    seq(|ps|, k requires 0 <= k < |ps| => Point(ps[k].date, ps[k].value / unit as real))
  }

  /** The today rule: the first entry of today takes the stored blocks; with none, they are appended when positive. */
  function WithToday(data: seq<Point>, today: int, todayBlocks: real): seq<Point>
  {
    match IndexOfDate(data, today)
    case Some(j) => data[j := Point(today, todayBlocks)]
    case None => if todayBlocks > 0.0 then data + [Point(today, todayBlocks)] else data
  }

  function TodayBlocks(totalFocusToday: int, unit: int): real
    requires unit > 0
  {
    (totalFocusToday as real / MsPerMinute as real) / unit as real
  }

  /** `workData`. `totalFocusToday` is the focus store's stored milliseconds; `today` the current day. */
  method WorkData(sessions: seq<WorkRow>, unit: Option<string>, today: int, totalFocusToday: int) returns (data: seq<Point>)
    ensures data == WithToday(Scaled(Accumulate(MinutePoints(sessions)), UnitMinutes(unit)), today,
                              TodayBlocks(totalFocusToday, UnitMinutes(unit)))
  {
    var unitMinutes := UnitMinutes(unit);
    var todayBlocks := TodayBlocks(totalFocusToday, unitMinutes);
    var sessionsByDate := Reduce(MinutePoints(sessions));
    data := Scaled(sessionsByDate, unitMinutes);
    var existingToday := IndexOfDate(data, today);
    if existingToday.Some? {
      data := data[existingToday.value := Point(today, todayBlocks)];
    } else if todayBlocks > 0.0 {
      data := data + [Point(today, todayBlocks)];
    }
  }

  lemma ScaledKeepsDays(acc: seq<Point>, u: int)
    requires u > 0
    ensures UniqueDates(acc) ==> UniqueDates(Scaled(acc, u))
    ensures forall d :: HasDate(Scaled(acc, u), d) <==> HasDate(acc, d)
  {
    var scaled := Scaled(acc, u);
    forall d ensures HasDate(scaled, d) <==> HasDate(acc, d) {
      if HasDate(acc, d) {
        var j :| 0 <= j < |acc| && acc[j].date == d;
        assert scaled[j].date == d;
      }
    }
  }

  /** The today rule keeps the days unique, sets today's value, and leaves every other point in place. */
  lemma WithTodayFacts(data: seq<Point>, today: int, tb: real)
    requires UniqueDates(data)
    ensures var r := WithToday(data, today, tb);
            && UniqueDates(r)
            && (HasDate(r, today) <==> HasDate(data, today) || tb > 0.0)
            && (forall j :: 0 <= j < |r| && r[j].date == today ==> r[j].value == tb)
            && (forall j :: 0 <= j < |r| && r[j].date != today ==> j < |data| && r[j] == data[j])
            && (forall d :: d != today ==> (HasDate(r, d) <==> HasDate(data, d)))
  {
    var r := WithToday(data, today, tb);
    match IndexOfDate(data, today)
    case Some(i) =>
      forall d ensures HasDate(r, d) <==> HasDate(data, d) {
        if HasDate(r, d) {
          var j :| 0 <= j < |r| && r[j].date == d;
          assert data[j].date == d;
        }
        if HasDate(data, d) {
          var j :| 0 <= j < |data| && data[j].date == d;
          assert r[j].date == d;
        }
      }
    case None =>
      forall d ensures HasDate(r, d) <==> HasDate(data, d) || (d == today && tb > 0.0) {
        if HasDate(r, d) {
          var j :| 0 <= j < |r| && r[j].date == d;
          if j < |data| {
            assert data[j].date == d;
          }
        }
        if HasDate(data, d) {
          var j :| 0 <= j < |data| && data[j].date == d;
          assert r[j].date == d;
        }
        if d == today && tb > 0.0 {
          assert r[|data|].date == d;
        }
      }
  }

  /**
   * The work series: each day once; today's value is the stored focus time in
   * blocks, present when today has sessions or that time is positive; every
   * other day's value is its summed minutes divided by the unit.
   */
  lemma WorkDataMeaning(sessions: seq<WorkRow>, unit: Option<string>, today: int, totalFocusToday: int)
    ensures var u := UnitMinutes(unit);
            var tb := TodayBlocks(totalFocusToday, u);
            var data := WithToday(Scaled(Accumulate(MinutePoints(sessions)), u), today, tb);
            && UniqueDates(data)
            && (HasDate(data, today) <==> HasDate(MinutePoints(sessions), today) || tb > 0.0)
            && (forall j :: 0 <= j < |data| && data[j].date == today ==> data[j].value == tb)
            && (forall j :: 0 <= j < |data| && data[j].date != today ==>
                  data[j].value == SumOn(MinutePoints(sessions), data[j].date) / u as real)
            && (forall d :: d != today ==> (HasDate(data, d) <==> HasDate(MinutePoints(sessions), d)))
  {
    var u := UnitMinutes(unit);
    var entries := MinutePoints(sessions);
    var acc := Accumulate(entries);
    AccumulateTotals(entries);
    ScaledKeepsDays(acc, u);
    WithTodayFacts(Scaled(acc, u), today, TodayBlocks(totalFocusToday, u));
  }

  // -------------------------------------------------------------------- isPaid

  function IsPaidProfile(profile: Option<Profile>): (b: bool)
    ensures b <==> profile.Some? && (profile.value.tier == Monthly || profile.value.tier == Lifetime)
  {
    profile.Some? && IsPaid(profile.value.tier)
  }
}
