/**
 * Anniversary billing cycles: a cycle begins on the anchor's day of the month, or on the last day
 * of a month that is too short.
 */
module BillingCycle {
  import opened Calendar

  function Least(a: int, b: int): int {
    if a < b then a else b
  }

  function ClampDay(year: int, month: int, day: int): int {
    Least(day, UTCDate(UTC(year, month + 1, 0)))
  }

  method CycleStart(anchor: int, now: int) returns (start: int)
    ensures start == Start(anchor, now)
  {
    var day := UTCDate(anchor);
    var year := UTCFullYear(now);
    var month := UTCMonth(now);
    ghost var m := MonthOf(DayOf(now));
    var candidate := OnMonth(year, month, day);
    if candidate > now {
      month := month - 1;
      if month < 0 {
        month := 11;
        year := year - 1;
      }
      PreviousMonth(m, year, month);
      candidate := OnMonth(year, month, day);
    }
    start := if candidate > SubscriptionStart(anchor) then candidate else SubscriptionStart(anchor);
  }

  method CycleEnd(start: int, anchor: int) returns (end: int)
    ensures end == End(start, anchor)
  {
    var day := UTCDate(anchor);
    var year := UTCFullYear(start);
    var month := UTCMonth(start) + 1;
    if month > 11 {
      month := 0;
      year := year + 1;
    }
    NextMonthIs(MonthOf(DayOf(start)), year, month);
    end := OnMonth(year, month, day);
  }

  lemma NextMonthIs(m: int, year: int, month: int)
    requires if m % 12 == 11 then year == m / 12 + 1 && month == 0 else year == m / 12 && month == m % 12 + 1
    ensures year == (m + 1) / 12 && month == (m + 1) % 12
  {
  }

  lemma PreviousMonth(m: int, year: int, month: int)
    requires if m % 12 == 0 then year == m / 12 - 1 && month == 11 else year == m / 12 && month == m % 12 - 1
    ensures year == (m - 1) / 12 && month == (m - 1) % 12
  {
  }

  function OnMonth(year: int, month: int, day: int): int {
    UTC(year, month, ClampDay(year, month, day))
  }

  function SubscriptionStart(anchor: int): int {
    UTC(UTCFullYear(anchor), UTCMonth(anchor), UTCDate(anchor))
  }

  /** Date.UTC on a month by its number, with the day clamped to that month. */
  function Anniversary(m: int, day: int): int {
    OnMonth(m / 12, m % 12, day)
  }

  function Start(anchor: int, now: int): int {
    var day, m := UTCDate(anchor), MonthOf(DayOf(now));
    var candidate := if Anniversary(m, day) > now then Anniversary(m - 1, day) else Anniversary(m, day);
    if candidate > SubscriptionStart(anchor) then candidate else SubscriptionStart(anchor)
  }

  function End(start: int, anchor: int): int {
    Anniversary(MonthOf(DayOf(start)) + 1, UTCDate(anchor))
  }

  // --------------------------------------------------- the calendar's boundaries ----

  /** The boundary the calendar prescribes for a month: its `day`-th, or its last day when it is shorter. */
  function Boundary(m: int, day: int): int {
    (MonthStart(m) + Least(day, MonthLength(m)) - 1) * MS_PER_DAY
  }

  predicate IsDay(day: int) {
    1 <= day <= 31
  }

  lemma BoundaryIsInItsMonth(m: int, day: int)
    requires IsDay(day)
    ensures DayOf(Boundary(m, day)) == MonthStart(m) + Least(day, MonthLength(m)) - 1
    ensures MonthOf(DayOf(Boundary(m, day))) == m
  {
    var d := MonthStart(m) + Least(day, MonthLength(m)) - 1;
    assert d * MS_PER_DAY / MS_PER_DAY == d;
    NextMonth(m);
    MonthIsUnique(d, m, MonthOf(d));
  }

  /** Each cycle is 28 to 31 days long. */
  lemma CycleLength(m: int, day: int)
    requires IsDay(day)
    ensures 28 * MS_PER_DAY <= Boundary(m + 1, day) - Boundary(m, day) <= 31 * MS_PER_DAY
  {
    NextMonth(m);
    NextMonth(m + 1);
    Lengths(m);
    var a, b := Least(day, MonthLength(m)), Least(day, MonthLength(m + 1));
    assert Boundary(m + 1, day) - Boundary(m, day) == (MonthLength(m) - a + b) * MS_PER_DAY;
  }

  /** No two consecutive months are both short. */
  lemma Lengths(m: int)
    ensures MonthLength(m) == 31 || MonthLength(m + 1) == 31
  {
  }

  lemma {:induction false} BoundariesAscend(a: int, b: int, day: int)
    requires IsDay(day) && a <= b
    ensures Boundary(b, day) - Boundary(a, day) >= 28 * (b - a) * MS_PER_DAY
    decreases b - a
  {
    if a < b {
      BoundariesAscend(a, b - 1, day);
      CycleLength(b - 1, day);
    }
  }

  /** The cycle an instant lies in. */
  function CycleOf(now: int, day: int): int {
    var m := MonthOf(DayOf(now));
    if Boundary(m, day) > now then m - 1 else m
  }

  lemma CycleHoldsNow(now: int, day: int)
    requires IsDay(day)
    ensures Boundary(CycleOf(now, day), day) <= now < Boundary(CycleOf(now, day) + 1, day)
  {
    var m := MonthOf(DayOf(now));
    NextMonth(m);
    NextMonth(m - 1);
    NextMonth(m + 1);
    assert DayOf(now) * MS_PER_DAY <= now < (DayOf(now) + 1) * MS_PER_DAY;
  }

  lemma CycleIsUnique(now: int, day: int, k: int)
    requires IsDay(day) && Boundary(k, day) <= now < Boundary(k + 1, day)
    ensures CycleOf(now, day) == k
  {
    CycleHoldsNow(now, day);
    var c := CycleOf(now, day);
    if c < k { BoundariesAscend(c + 1, k, day); }
    if k < c { BoundariesAscend(k + 1, c, day); }
  }

  // -------------------------------------------- what the code computes, and when ----

  const FIRST_PLAIN_MONTH := 1200

  /** From the year 100 on, Date.UTC means the year it is given. */
  lemma AnniversaryIsBoundary(m: int, day: int)
    requires m >= FIRST_PLAIN_MONTH && IsDay(day)
    ensures Anniversary(m, day) == Boundary(m, day)
  {
    assert FullYear(m / 12) == m / 12 && 12 * (m / 12) + m % 12 == m;
    ClampIsLength(m, day);
  }

  lemma ClampIsLength(m: int, day: int)
    requires m >= FIRST_PLAIN_MONTH
    ensures ClampDay(m / 12, m % 12, day) == Least(day, MonthLength(m))
  {
    var last := UTC(m / 12, m % 12 + 1, 0);
    assert last == (MonthStart(m + 1) - 1) * MS_PER_DAY;
    assert DayOf(last) == MonthStart(m + 1) - 1;
    NextMonth(m);
    MonthIsUnique(DayOf(last), m, MonthOf(DayOf(last)));
  }

  function AnchorMonth(anchor: int): int {
    MonthOf(DayOf(anchor))
  }

  /** The first instant of the anchor's UTC day. */
  function AnchorDay(anchor: int): int {
    DayOf(anchor) * MS_PER_DAY
  }

  lemma AnchorIsABoundary(anchor: int)
    ensures IsDay(UTCDate(anchor)) && Boundary(AnchorMonth(anchor), UTCDate(anchor)) == AnchorDay(anchor)
  {
    NextMonth(AnchorMonth(anchor));
  }

  lemma StartIsBoundary(anchor: int, now: int)
    requires UTCFullYear(anchor) >= 100 && now >= AnchorDay(anchor)
    ensures
      var day := UTCDate(anchor);
      && Start(anchor, now) == Boundary(CycleOf(now, day), day)
      && CycleOf(now, day) >= AnchorMonth(anchor) >= FIRST_PLAIN_MONTH
  {
    var day, a, m := UTCDate(anchor), AnchorMonth(anchor), MonthOf(DayOf(now));
    AnchorIsABoundary(anchor);
    CycleHoldsNow(now, day);
    var k := CycleOf(now, day);
    if k < a { BoundariesAscend(k + 1, a, day); }
    AnniversaryIsBoundary(m, day);
    if Boundary(m, day) > now { AnniversaryIsBoundary(m - 1, day); }
    BoundariesAscend(a, k, day);
    SubscriptionStartsOnAnchorDay(anchor);
  }

  lemma SubscriptionStartsOnAnchorDay(anchor: int)
    requires UTCFullYear(anchor) >= 100
    ensures SubscriptionStart(anchor) == AnchorDay(anchor)
  {
    assert 12 * UTCFullYear(anchor) + UTCMonth(anchor) == AnchorMonth(anchor);
  }

  lemma EndIsBoundary(anchor: int, k: int)
    requires k >= FIRST_PLAIN_MONTH
    ensures IsDay(UTCDate(anchor)) && End(Boundary(k, UTCDate(anchor)), anchor) == Boundary(k + 1, UTCDate(anchor))
  {
    AnchorIsABoundary(anchor);
    BoundaryIsInItsMonth(k, UTCDate(anchor));
    AnniversaryIsBoundary(k + 1, UTCDate(anchor));
  }

  // --------------------------------------------------------- main results ----

  ghost predicate ContainsNow(anchor: int, now: int) {
    Start(anchor, now) <= now < End(Start(anchor, now), anchor)
  }

  /** The cycle contains the instant it was computed for, 28 to 31 days long, for every anchor from the year 100 on. */
  lemma CycleContainsNow(anchor: int, now: int)
    requires UTCFullYear(anchor) >= 100 && now >= AnchorDay(anchor)
    ensures ContainsNow(anchor, now)
    ensures 28 * 24 * 60 * 60 * 1000 <= End(Start(anchor, now), anchor) - Start(anchor, now) <= 31 * 24 * 60 * 60 * 1000
  {
    var day := UTCDate(anchor);
    AnchorIsABoundary(anchor);
    StartIsBoundary(anchor, now);
    EndIsBoundary(anchor, CycleOf(now, day));
    CycleHoldsNow(now, day);
    CycleLength(CycleOf(now, day), day);
  }

  /** An instant begins a UTC day that is the `day`-th of its month, or the last of a month without a `day`-th. */
  predicate IsAnniversary(time: int, day: int) {
    && time % MS_PER_DAY == 0
    && (UTCDate(time) == day || (UTCDate(time) < day && UTCDate(time + MS_PER_DAY) == 1))
  }

  lemma BoundaryIsAnniversary(m: int, day: int)
    requires IsDay(day)
    ensures IsAnniversary(Boundary(m, day), day)
  {
    BoundaryIsInItsMonth(m, day);
    NextMonth(m);
    if MonthLength(m) < day {
      var next := Boundary(m, day) + MS_PER_DAY;
      assert DayOf(next) == MonthStart(m + 1);
      NextMonth(m + 1);
      MonthIsUnique(DayOf(next), m + 1, MonthOf(DayOf(next)));
    }
  }

  /** Cycles begin on the anchor's day of the month, and the next one begins in the next month. */
  lemma CyclesBeginOnAnniversaries(anchor: int, now: int)
    requires UTCFullYear(anchor) >= 100 && now >= AnchorDay(anchor)
    ensures
      var start, end := Start(anchor, now), End(Start(anchor, now), anchor);
      && IsAnniversary(start, UTCDate(anchor)) && IsAnniversary(end, UTCDate(anchor))
      && MonthOf(DayOf(end)) == MonthOf(DayOf(start)) + 1
  {
    var day := UTCDate(anchor);
    var k := CycleOf(now, day);
    AnchorIsABoundary(anchor);
    StartIsBoundary(anchor, now);
    EndIsBoundary(anchor, k);
    BoundaryIsAnniversary(k, day);
    BoundaryIsAnniversary(k + 1, day);
    BoundaryIsInItsMonth(k, day);
    BoundaryIsInItsMonth(k + 1, day);
  }

  /** A later instant never computes an earlier cycle, and the same one exactly until the cycle ends. */
  lemma CyclesAreMonotone(anchor: int, now: int, later: int)
    requires UTCFullYear(anchor) >= 100 && AnchorDay(anchor) <= now <= later
    ensures
      var start, end := Start(anchor, now), End(Start(anchor, now), anchor);
      && start <= Start(anchor, later)
      && (later < end <==> Start(anchor, later) == start)
      && (later >= end ==> Start(anchor, later) >= end)
  {
    var day := UTCDate(anchor);
    AnchorIsABoundary(anchor);
    StartIsBoundary(anchor, now);
    StartIsBoundary(anchor, later);
    EndIsBoundary(anchor, CycleOf(now, day));
    assert End(Start(anchor, now), anchor) == Boundary(CycleOf(now, day) + 1, day);
    LaterCycles(now, later, day);
  }

  lemma LaterCycles(now: int, later: int, day: int)
    requires IsDay(day) && now <= later
    ensures
      var k, l := CycleOf(now, day), CycleOf(later, day);
      && k <= l
      && Boundary(k, day) <= Boundary(l, day)
      && (later < Boundary(k + 1, day) <==> l == k)
      && (l == k || Boundary(k + 1, day) <= Boundary(l, day))
      && (l > k ==> Boundary(k, day) < Boundary(l, day))
  {
    var k, l := CycleOf(now, day), CycleOf(later, day);
    CycleHoldsNow(now, day);
    CycleHoldsNow(later, day);
    if l < k {
      BoundariesAscend(l + 1, k, day);
    } else if l > k {
      BoundariesAscend(k + 1, l, day);
      BoundariesAscend(k, l, day);
    }
  }

  /** The end of a cycle is the start of the next: no gap and no overlap. */
  lemma CyclesMeet(anchor: int, now: int)
    requires UTCFullYear(anchor) >= 100 && AnchorDay(anchor) <= now
    ensures
      var end := End(Start(anchor, now), anchor);
      Start(anchor, end) == end
  {
    var day := UTCDate(anchor);
    var k := CycleOf(now, day);
    AnchorIsABoundary(anchor);
    StartIsBoundary(anchor, now);
    EndIsBoundary(anchor, k);
    CycleHoldsNow(now, day);
    NextCycle(k, day);
    StartIsBoundary(anchor, Boundary(k + 1, day));
  }

  lemma NextCycle(k: int, day: int)
    requires IsDay(day)
    ensures CycleOf(Boundary(k + 1, day), day) == k + 1
  {
    CycleLength(k + 1, day);
    CycleIsUnique(Boundary(k + 1, day), day, k + 1);
  }

  /** The last instant of the year 99. */
  const END_OF_99 := MonthStart(FIRST_PLAIN_MONTH) * MS_PER_DAY - 1

  lemma YearNinetyNine()
    ensures MonthOf(DayOf(END_OF_99)) == FIRST_PLAIN_MONTH - 1
  {
    var last := FIRST_PLAIN_MONTH - 1;
    NextMonth(last);
    assert DayOf(END_OF_99) == MonthStart(FIRST_PLAIN_MONTH) - 1;
    MonthIsUnique(DayOf(END_OF_99), last, MonthOf(DayOf(END_OF_99)));
  }

  /** Anniversaries asked for in the year 99 land in 1999. */
  lemma AskedInNinetyNine(month: int, day: int)
    requires 0 <= month <= 11 && IsDay(day)
    ensures OnMonth(99, month, day) > END_OF_99
  {
    MonthsAreFar(FIRST_PLAIN_MONTH, 12 * 1999 + month);
    var last := UTC(99, month + 1, 0);
    assert DayOf(last) == MonthStart(12 * 1999 + month + 1) - 1;
    assert UTCDate(last) >= 1;
  }

  /**
   * Before the year 100 the two-digit-year rule of Date.UTC takes over: the cycle contains every
   * instant from the anchor's day on exactly when the anchor's year is 100 or later.
   */
  lemma ContainsNowIff(anchor: int)
    ensures (forall now :: now >= AnchorDay(anchor) ==> ContainsNow(anchor, now)) <==> UTCFullYear(anchor) >= 100
  {
    if UTCFullYear(anchor) >= 100 {
      forall now | now >= AnchorDay(anchor) ensures ContainsNow(anchor, now) { CycleContainsNow(anchor, now); }
    } else {
      YearNinetyNine();
      AnchoredByNinetyNine(anchor);
      AnchorIsABoundary(anchor);
      AskedInNinetyNine(11, UTCDate(anchor));
      AskedInNinetyNine(10, UTCDate(anchor));
      StartsTooLate(anchor, END_OF_99);
      assert !ContainsNow(anchor, END_OF_99);
    }
  }

  lemma AnchoredByNinetyNine(anchor: int)
    requires UTCFullYear(anchor) < 100
    ensures END_OF_99 >= AnchorDay(anchor)
  {
    MonthsAreFar(AnchorMonth(anchor) + 1, FIRST_PLAIN_MONTH);
  }

  lemma LastMonthOf99()
    ensures
      var m := FIRST_PLAIN_MONTH - 1;
      m / 12 == 99 && m % 12 == 11 && (m - 1) / 12 == 99 && (m - 1) % 12 == 10
  {
  }

  lemma StartsTooLate(anchor: int, now: int)
    requires MonthOf(DayOf(now)) == FIRST_PLAIN_MONTH - 1
    requires OnMonth(99, 11, UTCDate(anchor)) > now && OnMonth(99, 10, UTCDate(anchor)) > now
    ensures Start(anchor, now) > now
  {
    LastMonthOf99();
    var m, day := MonthOf(DayOf(now)), UTCDate(anchor);
    assert Anniversary(m, day) == OnMonth(99, 11, day) && Anniversary(m - 1, day) == OnMonth(99, 10, day);
  }
}
