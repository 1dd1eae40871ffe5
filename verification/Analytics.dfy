/**
 * The account's usage page: observation windows in UTC, the grid of buckets, and the fold of usage
 * rows into totals, a series by bucket and a breakdown by device.
 */
module Analytics {
  import opened Calendar

  const HOUR_MS := 3_600_000

  datatype UsagePeriod = Daily | Weekly | Monthly

  datatype Unit = Hourly | ByDay

  function BucketUnit(period: UsagePeriod): Unit {
    if period.Daily? then Hourly else ByDay
  }

  function Step(unit: Unit): int {
    if unit.Hourly? then HOUR_MS else MS_PER_DAY
  }

  /** getUTCDay: 0 is Sunday. */
  function WeekDay(day: int): int {
    (day + 4) % 7
  }

  /** The first instant of the current day, of the week's Monday, or of the month. */
  function WindowStart(period: UsagePeriod, now: int): int {
    var today := UTC(UTCFullYear(now), UTCMonth(now), UTCDate(now));
    match period
    case Daily => today
    case Weekly => today - ((WeekDay(DayOf(today)) + 6) % 7) * MS_PER_DAY
    case Monthly => today - (UTCDate(today) - 1) * MS_PER_DAY
  }

  datatype Span = Span(start: int, end: int)

  /** The window before, cut to the length of the current one that has passed. */
  function PreviousWindow(period: UsagePeriod, now: int): Span {
    var current := WindowStart(period, now);
    var start :=
      match period
      case Daily => current - MS_PER_DAY
      case Weekly => current - 7 * MS_PER_DAY
      case Monthly => MonthStart(MonthOf(DayOf(current)) - 1) * MS_PER_DAY;
    var elapsed := now - current;
    Span(start, if start + elapsed < current then start + elapsed else current)
  }

  function UsageBucket(time: int, unit: Unit): int {
    UTC(UTCFullYear(time), UTCMonth(time), UTCDate(time)) + if unit.Hourly? then (time % MS_PER_DAY) / HOUR_MS * HOUR_MS else 0
  }

  /** The instant's year is not one that Date.UTC takes for one of the twentieth century. */
  predicate Plain(time: int) {
    !(0 <= UTCFullYear(time) <= 99)
  }

  /** Then Date.UTC of an instant's own date is the start of its day. */
  lemma DayStart(time: int)
    requires Plain(time)
    ensures UTC(UTCFullYear(time), UTCMonth(time), UTCDate(time)) == DayOf(time) * MS_PER_DAY
  {
    assert 12 * UTCFullYear(time) + UTCMonth(time) == MonthOf(DayOf(time));
  }

  /** A bucket is the whole UTC hour, or the whole day, in which an instant lies; days are drawn by the hour. */
  lemma BucketIsBelow(time: int, unit: Unit)
    requires Plain(time)
    ensures UsageBucket(time, unit) <= time < UsageBucket(time, unit) + Step(unit) && UsageBucket(time, unit) % Step(unit) == 0
    ensures Step(unit) == (if unit == Hourly then 60 * 60 * 1000 else 24 * 60 * 60 * 1000)
    ensures BucketUnit(Daily) == Hourly && BucketUnit(Weekly) == ByDay && BucketUnit(Monthly) == ByDay
    ensures UsageBucket(time, unit) == DayOf(time) * MS_PER_DAY + (if unit.Hourly? then (time % MS_PER_DAY) / HOUR_MS * HOUR_MS else 0)
  {
    DayStart(time);
    var day, rest := DayOf(time), time % MS_PER_DAY;
    var hours := rest / HOUR_MS;
    assert time == day * MS_PER_DAY + rest;
    if unit == Hourly {
      assert UsageBucket(time, unit) == (day * 24 + hours) * HOUR_MS;
      assert hours * HOUR_MS <= rest < (hours + 1) * HOUR_MS;
      WholeHours(day * 24 + hours);
    } else {
      WholeDays(day);
    }
  }

  lemma WholeHours(k: int)
    ensures (k * HOUR_MS) % HOUR_MS == 0
  {
  }

  lemma WholeDays(k: int)
    ensures (k * MS_PER_DAY) % MS_PER_DAY == 0
  {
  }

  lemma {:induction false} LaterYears(a: int, b: int)
    requires a <= b
    ensures UTCFullYear(a) <= UTCFullYear(b)
  {
    var m, n := MonthOf(DayOf(a)), MonthOf(DayOf(b));
    if n < m { MonthsAreFar(n + 1, m); }
  }

  /**
   * The window starts with the current day, with the last Monday, or with the first of the month. The
   * fifth of January 1970, day 4, was a Monday.
   */
  lemma WindowStartIs(period: UsagePeriod, now: int)
    requires Plain(now)
    ensures WindowStart(period, now) == DayOf(WindowStart(period, now)) * MS_PER_DAY <= now
    ensures DayOf(now) - 31 < DayOf(WindowStart(period, now))
    ensures period == Daily ==> DayOf(WindowStart(period, now)) == DayOf(now)
    ensures period == Weekly ==> DayOf(now) - 7 < DayOf(WindowStart(period, now)) && (DayOf(WindowStart(period, now)) - 4) % 7 == 0
    ensures period == Monthly ==> DayOf(WindowStart(period, now)) == MonthStart(MonthOf(DayOf(now)))
  {
    DayStart(now);
    NextMonth(MonthOf(DayOf(now)));
    var today := DayOf(now) * MS_PER_DAY;
    assert DayOf(today) == DayOf(now);
    match period
    case Daily =>
    case Weekly =>
      var back := (WeekDay(DayOf(today)) + 6) % 7;
      assert WindowStart(period, now) == (DayOf(now) - back) * MS_PER_DAY;
    case Monthly =>
      assert WindowStart(period, now) == MonthStart(MonthOf(DayOf(now))) * MS_PER_DAY;
  }

  /** In the first hundred years the window starts centuries ahead. */
  lemma WindowIsAhead(period: UsagePeriod, now: int)
    requires !Plain(now)
    ensures WindowStart(period, now) > now
  {
    var m := MonthOf(DayOf(now));
    var today := UTC(UTCFullYear(now), UTCMonth(now), UTCDate(now));
    MonthsAreFar(m + 1, m + 12 * 1900);
    assert 12 * FullYear(UTCFullYear(now)) + UTCMonth(now) == m + 12 * 1900;
    assert DayOf(today) > DayOf(now) + 31 && today == DayOf(today) * MS_PER_DAY;
    NextMonth(MonthOf(DayOf(today)));
  }

  /** The previous window starts before the current one, and ends no later than that. */
  lemma PreviousComesBefore(period: UsagePeriod, now: int)
    ensures PreviousWindow(period, now).start < WindowStart(period, now) && PreviousWindow(period, now).end <= WindowStart(period, now)
  {
    if period.Monthly? {
      var m := MonthOf(DayOf(WindowStart(period, now)));
      NextMonth(m - 1);
    }
  }

  /**
   * The previous window starts a day, a week or a calendar month before the current one, and has gone on
   * as long as that has by now, unless that one has begun by then.
   */
  lemma PreviousIs(period: UsagePeriod, now: int)
    requires Plain(now)
    ensures
      var previous, start := PreviousWindow(period, now), WindowStart(period, now);
      && previous.end == (if previous.start + (now - start) < start then previous.start + (now - start) else start)
      && (period == Daily ==> previous.start == start - 24 * 60 * 60 * 1000)
      && (period == Weekly ==> previous.start == start - 7 * 24 * 60 * 60 * 1000)
      && (period == Monthly ==>
            previous.start == MonthStart(MonthOf(DayOf(start)) - 1) * MS_PER_DAY && MonthOf(DayOf(previous.start)) == MonthOf(DayOf(now)) - 1)
  {
    WindowStartIs(period, now);
    if period == Monthly {
      var m := MonthOf(DayOf(now));
      MonthIsUnique(MonthStart(m), MonthOf(MonthStart(m)), m);
      MonthIsUnique(MonthStart(m - 1), MonthOf(MonthStart(m - 1)), m - 1);
    }
  }

  /** The windows are well formed: they do not overlap, and the previous one is no longer than what has passed of the current. */
  predicate WellFormed(period: UsagePeriod, now: int) {
    var previous, start := PreviousWindow(period, now), WindowStart(period, now);
    && start <= now && previous.start < start && previous.start <= previous.end <= start
    && previous.end - previous.start <= now - start
  }

  /** They are exactly outside the years 0 to 99; within them the window starts in the future. */
  lemma WindowsDoNotOverlap(period: UsagePeriod, now: int)
    ensures WellFormed(period, now) <==> Plain(now)
  {
    PreviousComesBefore(period, now);
    if Plain(now) { WindowStartIs(period, now); } else { WindowIsAhead(period, now); }
  }

  // --------------------------------------------------------------- sums ----

  datatype Counters = Counters(download: nat, upload: nat)

  datatype Direction = Down | Up

  function Of(c: Counters, dir: Direction): nat {
    if dir.Down? then c.download else c.upload
  }

  function Plus(a: Counters, b: Counters): Counters {
    Counters(a.download + b.download, a.upload + b.upload)
  }

  datatype Row = Row(start: int, device: nat, bytes: Counters)

  /** What a breakdown is keyed by. */
  datatype Key = ByBucket(unit: Unit) | ByDevice

  function KeyOf(key: Key, row: Row): int {
    match key
    case ByBucket(unit) => UsageBucket(row.start, unit)
    case ByDevice => row.device
  }

  datatype Which = All | Under(key: Key, k: int) | UnderAny(key: Key, keys: seq<int>)

  /** Rows that start in [from, to), all of them or those under some keys of a breakdown. */
  datatype Filter = Filter(from: int, to: int, which: Which)

  predicate Keeps(filter: Filter, row: Row) {
    && filter.from <= row.start < filter.to
    && match filter.which
       case All => true
       case Under(key, k) => KeyOf(key, row) == k
       case UnderAny(key, keys) => KeyOf(key, row) in keys
  }

  function Part(filter: Filter, row: Row, dir: Direction): nat {
    if Keeps(filter, row) then Of(row.bytes, dir) else 0
  }

  /** What those of the first `n` rows that pass the filter add up to in one direction. */
  function Sum(rows: seq<Row>, n: nat, filter: Filter, dir: Direction): nat
    requires n <= |rows|
  {
    if n == 0 then 0 else Sum(rows, n - 1, filter, dir) + Part(filter, rows[n - 1], dir)
  }

  /** On the first `n` rows `either` is the disjoint union of `one` and `other`. */
  ghost predicate Splits(rows: seq<Row>, n: nat, either: Filter, one: Filter, other: Filter)
    requires n <= |rows|
  {
    forall i :: 0 <= i < n ==> SplitsAt(rows[i], either, one, other)
  }

  predicate SplitsAt(row: Row, either: Filter, one: Filter, other: Filter) {
    (Keeps(either, row) <==> Keeps(one, row) || Keeps(other, row)) && !(Keeps(one, row) && Keeps(other, row))
  }

  lemma {:induction false} SumSplits(rows: seq<Row>, n: nat, either: Filter, one: Filter, other: Filter, dir: Direction)
    requires n <= |rows| && Splits(rows, n, either, one, other)
    ensures Sum(rows, n, either, dir) == Sum(rows, n, one, dir) + Sum(rows, n, other, dir)
  {
    if n > 0 {
      SumSplits(rows, n - 1, either, one, other, dir);
      assert SplitsAt(rows[n - 1], either, one, other);
    }
  }

  lemma {:induction false} SumOfNone(rows: seq<Row>, n: nat, filter: Filter, dir: Direction)
    requires n <= |rows| && forall i :: 0 <= i < n ==> !Keeps(filter, rows[i])
    ensures Sum(rows, n, filter, dir) == 0
  {
    if n > 0 { SumOfNone(rows, n - 1, filter, dir); }
  }

  lemma {:induction false} SumOfSame(rows: seq<Row>, n: nat, filter: Filter, same: Filter, dir: Direction)
    requires n <= |rows| && forall i :: 0 <= i < n ==> (Keeps(filter, rows[i]) <==> Keeps(same, rows[i]))
    ensures Sum(rows, n, filter, dir) == Sum(rows, n, same, dir)
  {
    if n > 0 { SumOfSame(rows, n - 1, filter, same, dir); }
  }

  /** A table's entries added up in the order `keys` lists them. */
  function SumOver(table: map<int, Counters>, keys: seq<int>, dir: Direction): nat
    requires forall i :: 0 <= i < |keys| ==> keys[i] in table
  {
    if keys == [] then 0 else Of(table[keys[0]], dir) + SumOver(table, keys[1..], dir)
  }

  ghost predicate Lists(keys: seq<int>, table: map<int, Counters>) {
    && (forall i :: 0 <= i < |keys| ==> keys[i] in table)
    && (forall k :: k in table ==> k in keys)
    && (forall i, j :: 0 <= i < j < |keys| ==> keys[i] != keys[j])
  }

  /** A table that holds, for each key, the rows that fall under it adds up to all rows under its keys. */
  lemma {:induction false} PartsMakeTheWhole(rows: seq<Row>, span: Span, key: Key, table: map<int, Counters>, keys: seq<int>, dir: Direction)
    requires forall i :: 0 <= i < |keys| ==>
      keys[i] in table && Of(table[keys[i]], dir) == Sum(rows, |rows|, Filter(span.start, span.end, Under(key, keys[i])), dir)
    requires forall i, j :: 0 <= i < j < |keys| ==> keys[i] != keys[j]
    ensures SumOver(table, keys, dir) == Sum(rows, |rows|, Filter(span.start, span.end, UnderAny(key, keys)), dir)
    decreases |keys|
  {
    var whole := Filter(span.start, span.end, UnderAny(key, keys));
    if keys == [] {
      SumOfNone(rows, |rows|, whole, dir);
    } else {
      var k, rest := keys[0], keys[1..];
      assert keys == [k] + rest;
      assert k !in rest;
      PartsMakeTheWhole(rows, span, key, table, rest, dir);
      SumSplits(rows, |rows|, whole, Filter(span.start, span.end, Under(key, k)), Filter(span.start, span.end, UnderAny(key, rest)), dir);
    }
  }

  // --------------------------------------------------------------- grid ----

  function GridPoint(start: int, step: int, i: nat): int {
    start + i * step
  }

  ghost predicate OnGrid(key: int, start: int, step: int, now: int) {
    key <= now && exists i: nat :: key == GridPoint(start, step, i)
  }

  method LayGrid(start: int, step: int, now: int) returns (series: map<int, Counters>)
    requires step > 0
    ensures forall key :: key in series <==> OnGrid(key, start, step, now)
    ensures forall key :: key in series ==> series[key] == Counters(0, 0)
  {
    series := map[];
    var t := start;
    ghost var n: nat := 0;
    while t <= now
      invariant t == GridPoint(start, step, n)
      invariant forall key :: key in series <==> exists i: nat :: i < n && key == GridPoint(start, step, i)
      invariant forall key :: key in series ==> key <= now && series[key] == Counters(0, 0)
      decreases now - t
    {
      series := series[t := Counters(0, 0)];
      t, n := t + step, n + 1;
    }
    forall key | OnGrid(key, start, step, now) ensures key in series {
      var i: nat :| key == GridPoint(start, step, i);
      if i >= n { GridAscends(start, step, n, i); }
    }
  }

  lemma GridAscends(start: int, step: int, i: nat, j: nat)
    requires step > 0 && i <= j
    ensures GridPoint(start, step, i) <= GridPoint(start, step, j)
  {
    assert (j - i) * step >= 0;
  }

  /** Every instant of the window has its bucket on the grid that is laid. */
  lemma BucketIsOnGrid(period: UsagePeriod, now: int, time: int)
    requires Plain(WindowStart(period, now)) && Plain(now)
    requires WindowStart(period, now) <= time <= now
    ensures OnGrid(UsageBucket(time, BucketUnit(period)), WindowStart(period, now), Step(BucketUnit(period)), now)
  {
    var start, unit := WindowStart(period, now), BucketUnit(period);
    WindowStartIs(period, now);
    NothingBetween(period, now, time);
    BucketIsBelow(time, unit);
    assert DayOf(start) <= DayOf(time);
    var days := DayOf(time) - DayOf(start);
    var i := if unit.Hourly? then days * 24 + (time % MS_PER_DAY) / HOUR_MS else days;
    assert UsageBucket(time, unit) == GridPoint(start, Step(unit), i);
  }

  /** A window is too short to reach over a century. */
  lemma NothingBetween(period: UsagePeriod, now: int, time: int)
    requires Plain(WindowStart(period, now)) && Plain(now) && WindowStart(period, now) <= time <= now
    ensures Plain(time)
  {
    var start := WindowStart(period, now);
    WindowStartIs(period, now);
    LaterYears(start, time);
    LaterYears(time, now);
    if MonthOf(DayOf(start)) + 2 < MonthOf(DayOf(now)) { MonthsAreFar(MonthOf(DayOf(start)) + 1, MonthOf(DayOf(now))); }
  }

  // --------------------------------------------------------------- fold ----

  datatype Report = Report(totals: Counters, earlier: Counters, series: map<int, Counters>, devices: map<int, Counters>)

  /** The rows of the current window among those the query selects, as a half-open span. */
  function Window(period: UsagePeriod, now: int): Span {
    var first, start := PreviousWindow(period, now).start, WindowStart(period, now);
    Span(if first < start then start else first, now + 1)
  }

  /** The rows that are only compared with. */
  function Compared(period: UsagePeriod, now: int): Span {
    var previous, start := PreviousWindow(period, now), WindowStart(period, now);
    var end := if previous.end < start then previous.end else start;
    Span(previous.start, if end < now + 1 then end else now + 1)
  }

  function In(span: Span): Filter {
    Filter(span.start, span.end, All)
  }

  function Add(table: map<int, Counters>, k: int, bytes: Counters): map<int, Counters> {
    table[k := Plus(if k in table then table[k] else Counters(0, 0), bytes)]
  }

  /**
   * For the first `n` rows: `table` holds for each of its keys the sum of the window's rows under
   * that key, and no row of the window is under another key.
   */
  ghost predicate Tabulates(table: map<int, Counters>, rows: seq<Row>, n: nat, span: Span, key: Key)
    requires n <= |rows|
  {
    && (forall k, dir :: k in table ==> Of(table[k], dir) == Sum(rows, n, Filter(span.start, span.end, Under(key, k)), dir))
    && (forall i :: 0 <= i < n && Keeps(In(span), rows[i]) ==> KeyOf(key, rows[i]) in table)
  }

  lemma TabulatesOneMore(table: map<int, Counters>, rows: seq<Row>, n: nat, span: Span, key: Key)
    requires n < |rows| && Tabulates(table, rows, n, span, key)
    ensures Tabulates(if Keeps(In(span), rows[n]) then Add(table, KeyOf(key, rows[n]), rows[n].bytes) else table, rows, n + 1, span, key)
  {
    var next := if Keeps(In(span), rows[n]) then Add(table, KeyOf(key, rows[n]), rows[n].bytes) else table;
    forall k, dir | k in next ensures Of(next[k], dir) == Sum(rows, n + 1, Filter(span.start, span.end, Under(key, k)), dir) {
      if k !in table { SumOfNone(rows, n, Filter(span.start, span.end, Under(key, k)), dir); }
    }
  }

  /** What the page shows for the first `n` rows. */
  ghost predicate Accounts(report: Report, rows: seq<Row>, n: nat, period: UsagePeriod, now: int)
    requires n <= |rows|
  {
    && (forall dir :: Of(report.totals, dir) == Sum(rows, n, In(Window(period, now)), dir))
    && (forall dir :: Of(report.earlier, dir) == Sum(rows, n, In(Compared(period, now)), dir))
    && Tabulates(report.series, rows, n, Window(period, now), ByBucket(BucketUnit(period)))
    && Tabulates(report.devices, rows, n, Window(period, now), ByDevice)
  }

  lemma SumOneMore(total: Counters, next: Counters, rows: seq<Row>, n: nat, filter: Filter)
    requires n < |rows| && forall dir :: Of(total, dir) == Sum(rows, n, filter, dir)
    requires next == if Keeps(filter, rows[n]) then Plus(total, rows[n].bytes) else total
    ensures forall dir :: Of(next, dir) == Sum(rows, n + 1, filter, dir)
  {
    forall dir ensures Of(next, dir) == Sum(rows, n + 1, filter, dir) {
      assert Sum(rows, n + 1, filter, dir) == Sum(rows, n, filter, dir) + Part(filter, rows[n], dir);
    }
  }

  lemma AccountsOneMore(before: Report, after: Report, rows: seq<Row>, n: nat, period: UsagePeriod, now: int)
    requires n < |rows| && Accounts(before, rows, n, period, now)
    requires after.totals == if Keeps(In(Window(period, now)), rows[n]) then Plus(before.totals, rows[n].bytes) else before.totals
    requires after.earlier == if Keeps(In(Compared(period, now)), rows[n]) then Plus(before.earlier, rows[n].bytes) else before.earlier
    requires
      if Keeps(In(Window(period, now)), rows[n]) then
        && after.series == Add(before.series, UsageBucket(rows[n].start, BucketUnit(period)), rows[n].bytes)
        && after.devices == Add(before.devices, rows[n].device, rows[n].bytes)
      else after.series == before.series && after.devices == before.devices
    ensures Accounts(after, rows, n + 1, period, now)
  {
    SumOneMore(before.totals, after.totals, rows, n, In(Window(period, now)));
    SumOneMore(before.earlier, after.earlier, rows, n, In(Compared(period, now)));
    TabulatesOneMore(before.series, rows, n, Window(period, now), ByBucket(BucketUnit(period)));
    TabulatesOneMore(before.devices, rows, n, Window(period, now), ByDevice);
  }

  /** One of the first `n` rows lies in the window and in the bucket `key`. */
  ghost predicate HasRowUnder(rows: seq<Row>, n: nat, period: UsagePeriod, now: int, key: int)
    requires n <= |rows|
  {
    exists i :: 0 <= i < n && Keeps(In(Window(period, now)), rows[i]) && UsageBucket(rows[i].start, BucketUnit(period)) == key
  }

  lemma RowUnderOneMore(rows: seq<Row>, n: nat, period: UsagePeriod, now: int)
    requires n < |rows|
    ensures forall key :: HasRowUnder(rows, n + 1, period, now, key) <==>
      HasRowUnder(rows, n, period, now, key) || (Keeps(In(Window(period, now)), rows[n]) && UsageBucket(rows[n].start, BucketUnit(period)) == key)
  {
    var key := UsageBucket(rows[n].start, BucketUnit(period));
    assert Keeps(In(Window(period, now)), rows[n]) ==> HasRowUnder(rows, n + 1, period, now, key);
  }

  /** The fold over the account's usage rows. */
  method AccountAnalytics(rows: seq<Row>, period: UsagePeriod, now: int) returns (report: Report)
    ensures Accounts(report, rows, |rows|, period, now)
    ensures report.totals == Counters(Sum(rows, |rows|, In(Window(period, now)), Down), Sum(rows, |rows|, In(Window(period, now)), Up))
    ensures report.earlier == Counters(Sum(rows, |rows|, In(Compared(period, now)), Down), Sum(rows, |rows|, In(Compared(period, now)), Up))
    ensures forall key ::
      key in report.series <==>
        || OnGrid(key, UsageBucket(WindowStart(period, now), BucketUnit(period)), Step(BucketUnit(period)), now)
        || HasRowUnder(rows, |rows|, period, now, key)
  {
    var start, previous, unit := WindowStart(period, now), PreviousWindow(period, now), BucketUnit(period);
    var series := LayGrid(UsageBucket(start, unit), Step(unit), now);
    ghost var grid := series.Keys;
    report := Report(Counters(0, 0), Counters(0, 0), series, map[]);
    for i := 0 to |rows|
      invariant Accounts(report, rows, i, period, now)
      invariant forall key :: key in report.series <==> key in grid || HasRowUnder(rows, i, period, now, key)
    {
      var row := rows[i];
      ghost var before := report;
      if previous.start <= row.start <= now {
        if row.start < start {
          if row.start >= previous.start && row.start < previous.end {
            report := report.(earlier := Plus(report.earlier, row.bytes));
          }
        } else {
          report := Report(Plus(report.totals, row.bytes), report.earlier,
            Add(report.series, UsageBucket(row.start, unit), row.bytes), Add(report.devices, row.device, row.bytes));
        }
      }
      AccountsOneMore(before, report, rows, i, period, now);
      RowUnderOneMore(rows, i, period, now);
    }
    BothDirections(report.totals, rows, In(Window(period, now)));
    BothDirections(report.earlier, rows, In(Compared(period, now)));
  }

  lemma BothDirections(total: Counters, rows: seq<Row>, filter: Filter)
    requires forall dir :: Of(total, dir) == Sum(rows, |rows|, filter, dir)
    ensures total == Counters(Sum(rows, |rows|, filter, Down), Sum(rows, |rows|, filter, Up))
  {
    assert Of(total, Down) == total.download && Of(total, Up) == total.upload;
  }

  // --------------------------------------------------------- main results ----

  /** Totals, series and devices agree, in both directions, whatever the rows are. */
  lemma ThreeWayConservation(report: Report, rows: seq<Row>, period: UsagePeriod, now: int, buckets: seq<int>, devices: seq<int>, dir: Direction)
    requires Accounts(report, rows, |rows|, period, now)
    requires Lists(buckets, report.series) && Lists(devices, report.devices)
    ensures SumOver(report.series, buckets, dir) == Of(report.totals, dir) == SumOver(report.devices, devices, dir)
  {
    TableMakesTheWhole(report.series, rows, Window(period, now), ByBucket(BucketUnit(period)), buckets, dir);
    TableMakesTheWhole(report.devices, rows, Window(period, now), ByDevice, devices, dir);
  }

  lemma TableMakesTheWhole(table: map<int, Counters>, rows: seq<Row>, span: Span, key: Key, keys: seq<int>, dir: Direction)
    requires Tabulates(table, rows, |rows|, span, key) && Lists(keys, table)
    ensures SumOver(table, keys, dir) == Sum(rows, |rows|, In(span), dir)
  {
    PartsMakeTheWhole(rows, span, key, table, keys, dir);
    var whole := Filter(span.start, span.end, UnderAny(key, keys));
    forall i | 0 <= i < |rows| ensures Keeps(In(span), rows[i]) <==> Keeps(whole, rows[i]) {
      if Keeps(In(span), rows[i]) { assert KeyOf(key, rows[i]) in table; }
    }
    SumOfSame(rows, |rows|, In(span), whole, dir);
  }

  /** The bucket of every instant of the window is one of the grid that is laid before the fold. */
  ghost predicate GridIsComplete(period: UsagePeriod, now: int) {
    forall time: int :: WindowStart(period, now) <= time <= now ==>
      OnGrid(UsageBucket(time, BucketUnit(period)), UsageBucket(WindowStart(period, now), BucketUnit(period)), Step(BucketUnit(period)), now)
  }

  /**
   * So it is, unless the window starts in the years 0 to 99 and now does not lie in them: in a week that
   * reaches back into the year 99 the grid is laid centuries ahead.
   */
  lemma SeriesIsTheGrid(period: UsagePeriod, now: int)
    ensures GridIsComplete(period, now) <==> (Plain(now) ==> Plain(WindowStart(period, now)))
  {
    var start, unit := WindowStart(period, now), BucketUnit(period);
    if !Plain(now) {
      WindowIsAhead(period, now);
    } else {
      WindowStartIs(period, now);
      if Plain(start) {
        BucketIsBelow(start, unit);
        assert UsageBucket(start, unit) == start;
        forall time | start <= time <= now ensures OnGrid(UsageBucket(time, unit), start, Step(unit), now) {
          BucketIsOnGrid(period, now, time);
        }
      } else {
        StartsAhead(period, now);
        assert !OnGrid(UsageBucket(start, unit), UsageBucket(start, unit), Step(unit), now);
      }
    }
  }

  /** The first bucket is that of a day of the year 1999. */
  lemma StartsAhead(period: UsagePeriod, now: int)
    requires Plain(now) && !Plain(WindowStart(period, now))
    ensures UsageBucket(WindowStart(period, now), BucketUnit(period)) > now
  {
    var start := WindowStart(period, now);
    var m := MonthOf(DayOf(start));
    WindowStartIs(period, now);
    MonthsAreFar(m + 1, m + 12 * 1900);
    assert 12 * FullYear(UTCFullYear(start)) + UTCMonth(start) == m + 12 * 1900;
  }

  /** Rows of the previous window are never counted in the current one, and both windows are what they are said to be. */
  lemma WindowsAreSeparate(row: Row, period: UsagePeriod, now: int)
    ensures
      var previous := PreviousWindow(period, now);
      && !(Keeps(In(Window(period, now)), row) && Keeps(In(Compared(period, now)), row))
      && (Keeps(In(Window(period, now)), row) <==> WindowStart(period, now) <= row.start <= now)
      && (Keeps(In(Compared(period, now)), row) <==> previous.start <= row.start < previous.end)
  {
    PreviousComesBefore(period, now);
  }
}
