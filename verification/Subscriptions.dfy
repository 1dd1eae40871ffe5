/**
 * Subscription rows of one account. Granting a plan first reads the rows it takes over and only
 * then, in a transaction of its own, expires them and writes the new row.
 */
module Subscriptions {
  import opened Rows

  const MS_PER_DAY := 86_400_000

  datatype Mode = Extend | Replace

  /** `active` is the status column; a row counts for a moment `at` while it is active and expires later. */
  datatype Subscription = Subscription(tier: int, active: bool, createdAt: int, expiresAt: int)

  predicate Current(row: Subscription, at: int) {
    row.active && row.expiresAt > at
  }

  /** The read: which rows a grant takes over, and where the new term begins. */
  function Superseded(rows: seq<Subscription>, tier: int, mode: Mode, now: int): set<nat> {
    set i | 0 <= i < |rows| && Current(rows[i], now) && (mode.Extend? ==> rows[i].tier <= tier)
  }

  /** The latest expiry among the rows in `taken`, or `now` when there is none. */
  function LatestExpiry(rows: seq<Subscription>, taken: set<nat>, now: int): int {
    if |rows| == 0 then now
    else
      var rest := LatestExpiry(rows[..|rows| - 1], taken, now);
      if |rows| - 1 in taken then Max(rows[|rows| - 1].expiresAt, rest) else rest
  }

  function TermStart(rows: seq<Subscription>, taken: set<nat>, mode: Mode, now: int): int {
    if mode.Extend? then LatestExpiry(rows, taken, now) else now
  }

  /** The transaction: the rows that were read as superseded expire, the new row is written. */
  function Written(rows: seq<Subscription>, taken: set<nat>, row: Subscription): seq<Subscription> {
    seq(|rows|, i requires 0 <= i < |rows| => if i in taken then rows[i].(active := false) else rows[i]) + [row]
  }

  function Term(tier: int, now: int, start: int, days: nat): Subscription {
    Subscription(tier, true, now, start + days * MS_PER_DAY)
  }

  /** A grant that nothing interrupts. */
  function Granted(rows: seq<Subscription>, tier: int, days: nat, mode: Mode, now: int): seq<Subscription> {
    var taken := Superseded(rows, tier, mode, now);
    Written(rows, taken, Term(tier, now, TermStart(rows, taken, mode, now), days))
  }

  lemma {:induction false} LatestExpiryIs(rows: seq<Subscription>, taken: set<nat>, now: int)
    ensures LatestExpiry(rows, taken, now) >= now
    ensures forall i: nat :: i < |rows| && i in taken ==> rows[i].expiresAt <= LatestExpiry(rows, taken, now)
    ensures LatestExpiry(rows, taken, now) == now || exists i: nat :: i < |rows| && i in taken && rows[i].expiresAt == LatestExpiry(rows, taken, now)
  {
    if |rows| > 0 {
      var front := rows[..|rows| - 1];
      LatestExpiryIs(front, taken, now);
      forall i: nat | i < |rows| && i in taken ensures rows[i].expiresAt <= LatestExpiry(rows, taken, now) {
        if i < |front| { assert front[i] == rows[i]; }
      }
      if LatestExpiry(rows, taken, now) == LatestExpiry(front, taken, now) && LatestExpiry(front, taken, now) != now {
        var i: nat :| i < |front| && i in taken && front[i].expiresAt == LatestExpiry(front, taken, now);
        assert rows[i] == front[i];
      }
    }
  }

  datatype GrantError = FreeIsNotASubscription

  datatype Limits = Limits(maxDevices: int, maxSessions: int)

  datatype Offer = Offer(free: bool, tier: int, days: nat, maxDevices: int, maxSessions: int)

  class Account {
    var rows: seq<Subscription>
    var user: Option<Limits>

    constructor ()
      ensures rows == [] && user == None
    {
      rows, user := [], None;
    }

    /**
     * Extending takes over the current rows of the plan's tier and below and adds the new term to the one
     * that lasts longest; replacing takes over all of them and starts now. Every other row stays, and so
     * do limits that are higher than the plan's.
     */
    method GrantPlan(plan: Offer, days: Option<nat>, mode: Mode, now: int) returns (r: Result<int, GrantError>)
      modifies this
      ensures r.Err? <==> plan.free
      ensures r.Err? ==> rows == old(rows) && user == old(user)
      ensures r.Ok? ==>
        && rows == Granted(old(rows), plan.tier, if days.Some? then days.value else plan.days, mode, now)
        && rows[|old(rows)|] == Subscription(plan.tier, true, now, r.value)
      ensures r.Ok? ==> forall i :: 0 <= i < |old(rows)| ==>
        var row := old(rows)[i];
        var ends := row.active && row.expiresAt > now && (mode == Replace || row.tier <= plan.tier);
        rows[i] == if ends then row.(active := false) else row
      ensures r.Ok? ==>
        var start := r.value - (if days.Some? then days.value else plan.days) * 24 * 60 * 60 * 1000;
        && (mode == Replace ==> start == now)
        && (mode == Extend ==>
              && start >= now && (forall i :: 0 <= i < |old(rows)| && rows[i] != old(rows)[i] ==> old(rows)[i].expiresAt <= start)
              && (start == now || exists i :: 0 <= i < |old(rows)| && rows[i] != old(rows)[i] && old(rows)[i].expiresAt == start))
      ensures r.Ok? && old(user).Some? ==>
        && user.Some? && user.value.maxDevices >= plan.maxDevices && user.value.maxSessions >= plan.maxSessions
        && user.value.maxDevices in {old(user).value.maxDevices, plan.maxDevices} && user.value.maxDevices >= old(user).value.maxDevices
        && user.value.maxSessions in {old(user).value.maxSessions, plan.maxSessions} && user.value.maxSessions >= old(user).value.maxSessions
      ensures old(user).None? ==> user.None?
    {
      if plan.free { return Err(FreeIsNotASubscription); }
      var term := if days.Some? then days.value else plan.days;
      var superseded := Superseded(rows, plan.tier, mode, now);
      var start := if mode.Extend? then LatestExpiry(rows, superseded, now) else now;
      var expiresAt := start + term * MS_PER_DAY;
      LatestExpiryIs(rows, superseded, now);
      rows := Written(rows, superseded, Subscription(plan.tier, true, now, expiresAt));
      if user.Some? {
        user := Some(Limits(Max(user.value.maxDevices, plan.maxDevices), Max(user.value.maxSessions, plan.maxSessions)));
      }
      return Ok(expiresAt);
    }
  }

  // ------------------------------------------------------- distinct tiers ----

  ghost predicate DistinctTiers(rows: seq<Subscription>, at: int) {
    forall i, j :: 0 <= i < j < |rows| && Current(rows[i], at) && Current(rows[j], at) ==> rows[i].tier != rows[j].tier
  }

  /** A grant whose read may be out of date: `taken` is what it saw as superseded when it read. */
  lemma StaleWriteKeepsTiersIff(rows: seq<Subscription>, taken: set<nat>, row: Subscription, at: int)
    requires DistinctTiers(rows, at) && Current(row, at)
    ensures DistinctTiers(Written(rows, taken, row), at) <==>
      forall i: nat :: i < |rows| && Current(rows[i], at) && rows[i].tier == row.tier ==> i in taken
  {
    var after := Written(rows, taken, row);
    assert forall i: nat :: i < |rows| ==> (Current(after[i], at) <==> Current(rows[i], at) && i !in taken);
    if forall i: nat :: i < |rows| && Current(rows[i], at) && rows[i].tier == row.tier ==> i in taken {
      forall i, j | 0 <= i < j < |after| && Current(after[i], at) && Current(after[j], at) ensures after[i].tier != after[j].tier {
        if j < |rows| { assert Current(rows[i], at) && Current(rows[j], at); }
      }
    } else {
      var i: nat :| i < |rows| && Current(rows[i], at) && rows[i].tier == row.tier && i !in taken;
      assert Current(after[i], at) && after[|rows|] == row;
    }
  }

  /** An uninterrupted grant keeps the tiers of current rows pairwise distinct, now and at any later moment. */
  lemma GrantKeepsTiers(rows: seq<Subscription>, tier: int, days: nat, mode: Mode, now: int, at: int)
    requires DistinctTiers(rows, now) && now <= at
    ensures DistinctTiers(Granted(rows, tier, days, mode, now), at)
  {
    var taken := Superseded(rows, tier, mode, now);
    var row := Term(tier, now, TermStart(rows, taken, mode, now), days);
    assert DistinctTiers(rows, at);
    if Current(row, at) {
      StaleWriteKeepsTiersIff(rows, taken, row, at);
    }
  }

  datatype Grant = Grant(tier: int, days: nat, mode: Mode, now: int)

  function AfterGrants(rows: seq<Subscription>, grants: seq<Grant>): seq<Subscription>
    decreases |grants|
  {
    if grants == [] then rows
    else AfterGrants(Granted(rows, grants[0].tier, grants[0].days, grants[0].mode, grants[0].now), grants[1..])
  }

  ghost predicate InOrder(from: int, grants: seq<Grant>)
    decreases |grants|
  {
    grants != [] ==> from <= grants[0].now && InOrder(grants[0].now, grants[1..])
  }

  /** Across any run of grants an account never has two current rows of one tier. */
  lemma {:induction false} TiersStayDistinct(rows: seq<Subscription>, from: int, grants: seq<Grant>, at: int)
    requires DistinctTiers(rows, from) && InOrder(from, grants)
    requires from <= at && forall k :: 0 <= k < |grants| ==> grants[k].now <= at
    ensures DistinctTiers(AfterGrants(rows, grants), at)
    decreases |grants|
  {
    if grants == [] {
      assert forall i :: 0 <= i < |rows| && Current(rows[i], at) ==> Current(rows[i], from);
    } else {
      var g := grants[0];
      assert DistinctTiers(rows, g.now) by {
        assert forall i :: 0 <= i < |rows| && Current(rows[i], g.now) ==> Current(rows[i], from);
      }
      GrantKeepsTiers(rows, g.tier, g.days, g.mode, g.now, g.now);
      TiersStayDistinct(Granted(rows, g.tier, g.days, g.mode, g.now), g.now, grants[1..], at);
    }
  }

  /** The read is outside the transaction: two grants that both read before either wrote leave two rows of one tier. */
  lemma OverlappingGrantsCollide(rows: seq<Subscription>, tier: int, days: nat, now: int)
    requires days > 0
    ensures
      var taken := Superseded(rows, tier, Extend, now);
      var row := Term(tier, now, TermStart(rows, taken, Extend, now), days);
      var both := Written(Written(rows, taken, row), taken, row);
      !DistinctTiers(both, now)
  {
    var taken := Superseded(rows, tier, Extend, now);
    LatestExpiryIs(rows, taken, now);
    var row := Term(tier, now, TermStart(rows, taken, Extend, now), days);
    var both := Written(Written(rows, taken, row), taken, row);
    assert |rows| !in taken;
    assert both[|rows|] == row && both[|rows| + 1] == row && Current(row, now);
  }

  // -------------------------------------------------------- paid days kept ----

  ghost function Reaching(rows: seq<Subscription>, k: int, at: int): set<nat> {
    set i | 0 <= i < |rows| && Current(rows[i], at) && rows[i].tier >= k
  }

  /** The latest moment some current row of tier `k` or above lasts to, or `at`. */
  ghost function LastsTo(rows: seq<Subscription>, k: int, at: int): int {
    LatestExpiry(rows, Reaching(rows, k, at), at)
  }

  lemma LastsToIs(rows: seq<Subscription>, k: int, at: int)
    ensures LastsTo(rows, k, at) >= at
    ensures forall i: nat :: i < |rows| && Current(rows[i], at) && rows[i].tier >= k ==> rows[i].expiresAt <= LastsTo(rows, k, at)
    ensures LastsTo(rows, k, at) == at ||
      exists i: nat :: i < |rows| && Current(rows[i], at) && rows[i].tier >= k && rows[i].expiresAt == LastsTo(rows, k, at)
  {
    LatestExpiryIs(rows, Reaching(rows, k, at), at);
  }

  /** Extending never shortens what the account has at tier `k` or above, for any `k`. */
  lemma ExtendNeverShortens(rows: seq<Subscription>, tier: int, days: nat, now: int, k: int)
    ensures LastsTo(Granted(rows, tier, days, Extend, now), k, now) >= LastsTo(rows, k, now)
  {
    var taken := Superseded(rows, tier, Extend, now);
    var after := Granted(rows, tier, days, Extend, now);
    LatestExpiryIs(rows, taken, now);
    LastsToIs(rows, k, now);
    LastsToIs(after, k, now);
    if LastsTo(rows, k, now) != now {
      var i: nat :| i < |rows| && Current(rows[i], now) && rows[i].tier >= k && rows[i].expiresAt == LastsTo(rows, k, now);
      if i in taken {
        assert after[|rows|].expiresAt >= rows[i].expiresAt && after[|rows|].tier >= k && Current(after[|rows|], now);
      } else {
        assert after[i] == rows[i];
      }
    }
  }

  function TotalDays(grants: seq<Grant>): nat {
    if grants == [] then 0 else grants[0].days + TotalDays(grants[1..])
  }

  ghost predicate Ascending(tier: int, grants: seq<Grant>)
    decreases |grants|
  {
    grants != [] ==> grants[0].mode.Extend? && tier <= grants[0].tier && Ascending(grants[0].tier, grants[1..])
  }

  ghost predicate HasActiveUntil(rows: seq<Subscription>, time: int) {
    exists i: nat :: i < |rows| && rows[i].active && rows[i].expiresAt >= time
  }

  lemma {:induction false} TermsStack(rows: seq<Subscription>, last: nat, grants: seq<Grant>)
    requires last < |rows| && rows[last].active && Ascending(rows[last].tier, grants)
    ensures HasActiveUntil(AfterGrants(rows, grants), rows[last].expiresAt + TotalDays(grants) * MS_PER_DAY)
    decreases |grants|
  {
    if grants != [] {
      var g := grants[0];
      var taken := Superseded(rows, g.tier, g.mode, g.now);
      var after := Granted(rows, g.tier, g.days, g.mode, g.now);
      LatestExpiryIs(rows, taken, g.now);
      assert Current(rows[last], g.now) ==> last in taken;
      assert after[|rows|].expiresAt >= rows[last].expiresAt + g.days * MS_PER_DAY;
      TermsStack(after, |rows|, grants[1..]);
    }
  }

  /**
   * No paid day is lost: after a run of extending grants of non-decreasing tiers an active row lasts
   * at least from the first grant for all the days granted, however long the pauses between them.
   */
  lemma NoDayIsLost(rows: seq<Subscription>, grants: seq<Grant>)
    requires grants != [] && Ascending(grants[0].tier, grants)
    ensures HasActiveUntil(AfterGrants(rows, grants), grants[0].now + TotalDays(grants) * MS_PER_DAY)
  {
    var g := grants[0];
    var after := Granted(rows, g.tier, g.days, g.mode, g.now);
    LatestExpiryIs(rows, Superseded(rows, g.tier, g.mode, g.now), g.now);
    TermsStack(after, |rows|, grants[1..]);
  }
}
