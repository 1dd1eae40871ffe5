/**
 * The traffic allowance: where its windows are anchored, how they tile time, and what is counted in
 * each. The anchor is the first row of the chain of same-plan rows that led to the current one.
 */
module Quota {
  const DAY_MS := 86_400_000
  const QUOTA_PERIOD_MS := 30 * DAY_MS
  const LOOK_BACK := 36

  /** A same-plan subscription row, whatever its status. */
  datatype Row = Row(createdAt: int, expiresAt: int)

  /** Rows newest first, as the query returns them; creation times differ. */
  ghost predicate NewestFirst(rows: seq<Row>) {
    forall i, j :: 0 <= i < j < |rows| ==> rows[i].createdAt > rows[j].createdAt
  }

  /** A row that had not run out, with a day of slack, when the next one began at `anchor`. */
  predicate Contiguous(row: Row, anchor: int) {
    row.expiresAt + DAY_MS >= anchor
  }

  /** How many rows back the chain from `anchor` goes. */
  function ChainLength(rows: seq<Row>, anchor: int): (n: nat)
    ensures n <= |rows|
  {
    if rows == [] || !Contiguous(rows[0], anchor) then 0 else 1 + ChainLength(rows[1..], rows[0].createdAt)
  }

  function Taken(rows: seq<Row>): seq<Row> {
    if |rows| <= LOOK_BACK then rows else rows[..LOOK_BACK]
  }

  /** The oldest row the walk reaches; `rows` are those created before `createdAt`. */
  function Anchor(rows: seq<Row>, createdAt: int): int {
    var n := ChainLength(Taken(rows), createdAt);
    if n == 0 then createdAt else Taken(rows)[n - 1].createdAt
  }

  method ChainStart(rows: seq<Row>, createdAt: int) returns (anchor: int)
    ensures anchor == Anchor(rows, createdAt)
  {
    var previous := if |rows| <= LOOK_BACK then rows else rows[..LOOK_BACK];
    anchor := createdAt;
    for i := 0 to |previous|
      invariant i == 0 ==> anchor == createdAt
      invariant i > 0 ==> anchor == previous[i - 1].createdAt
      invariant ChainLength(previous, createdAt) == i + ChainLength(previous[i..], anchor)
    {
      if previous[i].expiresAt + DAY_MS < anchor { break; }
      anchor := previous[i].createdAt;
      assert previous[i..][1..] == previous[i + 1..];
    }
  }

  lemma {:induction false} ChainOfPrefix(rows: seq<Row>, anchor: int, k: nat)
    requires k <= |rows|
    ensures ChainLength(rows[..k], anchor) == if ChainLength(rows, anchor) < k then ChainLength(rows, anchor) else k
    decreases k
  {
    if k > 0 && Contiguous(rows[0], anchor) {
      assert rows[..k][1..] == rows[1..][..k - 1];
      ChainOfPrefix(rows[1..], rows[0].createdAt, k - 1);
    }
  }

  /** The walk sees the whole chain up to its look-back. */
  lemma AnchorIs(rows: seq<Row>, createdAt: int)
    ensures
      var n := ChainLength(rows, createdAt);
      Anchor(rows, createdAt) ==
        if n == 0 then createdAt else if n <= LOOK_BACK then rows[n - 1].createdAt else rows[LOOK_BACK - 1].createdAt
  {
    if |rows| > LOOK_BACK { ChainOfPrefix(rows, createdAt, LOOK_BACK); }
  }

  /**
   * Renewal never resets the traffic window. `previous` is the row before the new one and `older` the
   * rows before that: the new row has the anchor of the previous one exactly when it was created no
   * later than a day after the previous one's expiry and that one's chain goes back fewer than 36 rows.
   */
  lemma RenewalKeepsAnchorIff(older: seq<Row>, previous: Row, createdAt: int)
    requires NewestFirst([previous] + older) && previous.createdAt < createdAt
    ensures Anchor([previous] + older, createdAt) == Anchor(older, previous.createdAt) <==>
      createdAt <= previous.expiresAt + 24 * 60 * 60 * 1000 && ChainLength(older, previous.createdAt) < 36
  {
    var all := [previous] + older;
    AnchorIs(all, createdAt);
    AnchorIs(older, previous.createdAt);
    assert all[1..] == older;
    var n := ChainLength(older, previous.createdAt);
    forall i | 0 <= i < |older| ensures older[i].createdAt < previous.createdAt {
      assert all[0].createdAt > all[i + 1].createdAt;
    }
    if Contiguous(previous, createdAt) {
      assert ChainLength(all, createdAt) == 1 + n;
      if n >= LOOK_BACK {
        assert all[LOOK_BACK - 1].createdAt > all[LOOK_BACK].createdAt;
      }
    }
  }

  // ------------------------------------------------------------- windows ----

  datatype Period = Period(index: nat, start: int, end: int)

  function QuotaPeriod(anchor: int, at: int): Period {
    var elapsed := at - anchor;
    var index := if elapsed <= 0 then 0 else elapsed / QUOTA_PERIOD_MS;
    var start := anchor + index * QUOTA_PERIOD_MS;
    Period(index, start, start + QUOTA_PERIOD_MS)
  }

  function Window(anchor: int, k: nat): Period {
    var start := anchor + k * QUOTA_PERIOD_MS;
    Period(k, start, start + QUOTA_PERIOD_MS)
  }

  /**
   * From the anchor on every instant lies in exactly one window of thirty days, and that is the one
   * computed for it; before the anchor it is the first window.
   */
  lemma WindowsTile(anchor: int, at: int, k: nat)
    ensures QuotaPeriod(anchor, at).index >= 0 && QuotaPeriod(anchor, at) == Window(anchor, QuotaPeriod(anchor, at).index)
    ensures at >= anchor ==> (Window(anchor, k).start <= at < Window(anchor, k).end <==> Window(anchor, k) == QuotaPeriod(anchor, at))
    ensures at < anchor ==> QuotaPeriod(anchor, at) == Window(anchor, 0)
    ensures Window(anchor, 0).start == anchor && Window(anchor, k).end == Window(anchor, k + 1).start
    ensures Window(anchor, k).end - Window(anchor, k).start == 30 * 24 * 60 * 60 * 1000
  {
    var index := (at - anchor) / QUOTA_PERIOD_MS;
    if k < index {
      assert (k + 1) * QUOTA_PERIOD_MS <= index * QUOTA_PERIOD_MS;
    } else if k > index {
      assert k * QUOTA_PERIOD_MS >= (index + 1) * QUOTA_PERIOD_MS;
    }
  }

  datatype Bucket = Bucket(start: int, upload: nat, download: nat)

  function Uploaded(buckets: seq<Bucket>, from: int, to: int): nat {
    if buckets == [] then 0 else (if from <= buckets[0].start < to then buckets[0].upload else 0) + Uploaded(buckets[1..], from, to)
  }

  function Downloaded(buckets: seq<Bucket>, from: int, to: int): nat {
    if buckets == [] then 0 else (if from <= buckets[0].start < to then buckets[0].download else 0) + Downloaded(buckets[1..], from, to)
  }

  /** The account's bytes, in both directions, in the hourly buckets that start in [from, to). */
  function UsedBytes(buckets: seq<Bucket>, from: int, to: int): nat {
    Uploaded(buckets, from, to) + Downloaded(buckets, from, to)
  }

  /** A bucket counts with its bytes in both directions if it starts in the window, and not at all otherwise, wherever it stands. */
  lemma {:induction false} BucketCounts(before: seq<Bucket>, bucket: Bucket, after: seq<Bucket>, from: int, to: int)
    ensures UsedBytes([], from, to) == 0
    ensures UsedBytes(before + [bucket] + after, from, to) ==
      UsedBytes(before + after, from, to) + if from <= bucket.start < to then bucket.upload + bucket.download else 0
    decreases |before|
  {
    if before == [] {
      assert before + [bucket] + after == [bucket] + after && before + after == after;
    } else {
      assert (before + [bucket] + after)[1..] == before[1..] + [bucket] + after && (before + after)[1..] == before[1..] + after;
      BucketCounts(before[1..], bucket, after, from, to);
    }
  }

  function UsedInPeriod(buckets: seq<Bucket>, period: Period): nat {
    UsedBytes(buckets, period.start, period.end)
  }

  lemma {:induction false} UsedBytesSplits(buckets: seq<Bucket>, from: int, mid: int, to: int)
    requires from <= mid <= to
    ensures UsedBytes(buckets, from, to) == UsedBytes(buckets, from, mid) + UsedBytes(buckets, mid, to)
  {
    if buckets != [] { UsedBytesSplits(buckets[1..], from, mid, to); }
  }

  function UsedInWindows(buckets: seq<Bucket>, anchor: int, n: nat): nat {
    if n == 0 then 0 else UsedInWindows(buckets, anchor, n - 1) + UsedInPeriod(buckets, Window(anchor, n - 1))
  }

  /** Nothing is counted twice and nothing is dropped: the windows add up to all traffic since the anchor. */
  lemma {:induction false} WindowsConserveTraffic(buckets: seq<Bucket>, anchor: int, n: nat)
    ensures UsedInWindows(buckets, anchor, n) == UsedBytes(buckets, anchor, Window(anchor, n).start)
  {
    if n == 0 {
      EmptyRange(buckets, anchor);
    } else {
      WindowsConserveTraffic(buckets, anchor, n - 1);
      UsedBytesSplits(buckets, anchor, Window(anchor, n - 1).start, Window(anchor, n).start);
    }
  }

  lemma {:induction false} EmptyRange(buckets: seq<Bucket>, at: int)
    ensures UsedBytes(buckets, at, at) == 0
  {
    if buckets != [] { EmptyRange(buckets[1..], at); }
  }

  /** Paying again in time does not give traffic back: usage in the window at `at` is what it was without the new row. */
  lemma RenewalKeepsUsage(older: seq<Row>, previous: Row, createdAt: int, buckets: seq<Bucket>, at: int)
    requires NewestFirst([previous] + older) && previous.createdAt < createdAt
    requires createdAt <= previous.expiresAt + DAY_MS && ChainLength(older, previous.createdAt) < LOOK_BACK
    ensures
      UsedInPeriod(buckets, QuotaPeriod(Anchor([previous] + older, createdAt), at)) ==
      UsedInPeriod(buckets, QuotaPeriod(Anchor(older, previous.createdAt), at))
  {
    RenewalKeepsAnchorIff(older, previous, createdAt);
  }
}
