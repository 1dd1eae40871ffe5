/**
 * The life of an order, one step per database statement: at-least-once gateway events, an admin's
 * marking and cancelling, housekeeping, refunds, the revival of dead orders, and checkouts that fail.
 * A process that stops for ever is a process that takes no further step.
 */
module Orders {
  import opened Rows

  datatype OrderStatus = Unpaid | Paid | Dead | Cancelled | Refunded

  /** `promo` is the code in the order's metadata. `Unpaid` is PENDING and `Dead` is FAILED. */
  datatype Order = Order(status: OrderStatus, promo: Option<nat>)

  /** A request between two of its statements. */
  datatype Proc =
    /** createOrder after the order row exists, waiting for the gateway. */
    | CheckingOut(order: nat)
    /** markOrderPaid after its read: `revivable` widens the claim, `promo` is the metadata it read. */
    | Claiming(order: nat, revivable: bool, promo: Option<nat>)
    | Granting(order: nat, promo: Option<nat>)
    | Looking(order: nat, code: nat)
    | Redeeming(order: nat, code: nat)

  datatype State = State(
    orders: map<nat, Order>,
    /** How often each order was moved to PAID, and how often its plan was granted. */
    claims: multiset<nat>,
    grants: multiset<nat>,
    /** redeemedCount of each promo code, and the redemption rows: at most one per order. */
    counters: map<nat, nat>,
    redemptions: map<nat, nat>,
    procs: map<nat, Proc>)

  datatype Step =
    | Create(p: nat, o: nat, promo: Option<nat>)
    | CheckoutDone(p: nat)
    | CheckoutFails(p: nat)
    | PayRead(p: nat, o: nat, revive: bool)
    | PayClaim(p: nat)
    | PayGrant(p: nat)
    | PromoLookup(p: nat)
    | PromoRedeem(p: nat)
    | Fail(o: nat, status: OrderStatus)
    | Expire(stale: set<nat>)
    | Refund(o: nat)

  function Ends(sys: State, p: nat): State {
    sys.(procs := sys.procs - {p})
  }

  function Goes(sys: State, p: nat, proc: Proc): State {
    sys.(procs := sys.procs[p := proc])
  }

  function WithOrder(sys: State, o: nat, order: Order): State {
    sys.(orders := sys.orders[o := order])
  }

  predicate Claimable(order: Order, revivable: bool) {
    order.status.Unpaid? || (revivable && (order.status.Dead? || order.status.Cancelled?))
  }

  function Apply(sys: State, step: Step): State {
    match step
    case Create(p, o, promo) =>
      if o in sys.orders || p in sys.procs then sys
      else Goes(WithOrder(sys, o, Order(Unpaid, promo)), p, CheckingOut(o))
    case CheckoutDone(p) =>
      if p !in sys.procs || !sys.procs[p].CheckingOut? then sys else Ends(sys, p)
    case CheckoutFails(p) =>
      if p !in sys.procs || !sys.procs[p].CheckingOut? then sys
      else Ends(WithOrder(sys, sys.procs[p].order, Order(Dead, None)), p)
    case PayRead(p, o, revive) =>
      if p in sys.procs || o !in sys.orders then sys
      else
        var order := sys.orders[o];
        var revivable := revive && (order.status.Dead? || order.status.Cancelled?);
        if order.status.Unpaid? || revivable then Goes(sys, p, Claiming(o, revivable, order.promo)) else sys
    case PayClaim(p) =>
      if p !in sys.procs || !sys.procs[p].Claiming? then sys
      else
        var Claiming(o, revivable, promo) := sys.procs[p];
        if o !in sys.orders || !Claimable(sys.orders[o], revivable) then Ends(sys, p)
        else Goes(WithOrder(sys, o, Order(Paid, promo)).(claims := sys.claims + multiset{o}), p, Granting(o, promo))
    case PayGrant(p) =>
      if p !in sys.procs || !sys.procs[p].Granting? then sys
      else
        var Granting(o, promo) := sys.procs[p];
        var granted := sys.(grants := sys.grants + multiset{o});
        if promo.Some? then Goes(granted, p, Looking(o, promo.value)) else Ends(granted, p)
    case PromoLookup(p) =>
      if p !in sys.procs || !sys.procs[p].Looking? then sys
      else
        var Looking(o, code) := sys.procs[p];
        if code !in sys.counters || o in sys.redemptions then Ends(sys, p) else Goes(sys, p, Redeeming(o, code))
    case PromoRedeem(p) =>
      if p !in sys.procs || !sys.procs[p].Redeeming? then sys
      else
        var Redeeming(o, code) := sys.procs[p];
        if o in sys.redemptions || code !in sys.counters then Ends(sys, p)
        else Ends(sys.(redemptions := sys.redemptions[o := code], counters := sys.counters[code := sys.counters[code] + 1]), p)
    case Fail(o, status) =>
      if o !in sys.orders || !sys.orders[o].status.Unpaid? || !(status.Dead? || status.Cancelled?) then sys
      else WithOrder(sys, o, sys.orders[o].(status := status))
    case Expire(stale) =>
      sys.(orders := map o | o in sys.orders ::
        if o in stale && sys.orders[o].status.Unpaid? then sys.orders[o].(status := Cancelled) else sys.orders[o])
    case Refund(o) =>
      if o !in sys.orders || !sys.orders[o].status.Paid? then sys
      else WithOrder(sys, o, sys.orders[o].(status := Refunded))
  }

  function Run(sys: State, steps: seq<Step>): State
    decreases |steps|
  {
    if steps == [] then sys else Run(Apply(sys, steps[0]), steps[1..])
  }

  predicate Initial(sys: State) {
    && sys.orders == map[] && sys.procs == map[] && sys.redemptions == map[]
    && sys.claims == multiset{} && sys.grants == multiset{}
    && forall code :: code in sys.counters ==> sys.counters[code] == 0
  }

  predicate Settled(order: Order) {
    order.status.Paid? || order.status.Refunded?
  }

  /** The write of a failed checkout tests no status; in a careful run it never meets an order that has been paid. */
  predicate Careful(sys: State, step: Step) {
    match step
    case CheckoutFails(p) =>
      p in sys.procs && sys.procs[p].CheckingOut? && sys.procs[p].order in sys.orders ==> !Settled(sys.orders[sys.procs[p].order])
    case _ => true
  }

  predicate CarefulRun(sys: State, steps: seq<Step>)
    decreases |steps|
  {
    steps != [] ==> Careful(sys, steps[0]) && CarefulRun(Apply(sys, steps[0]), steps[1..])
  }

  // ------------------------------------------------------ promo bookkeeping ----

  function Uses(redemptions: map<nat, nat>, code: nat): set<nat> {
    set o | o in redemptions && redemptions[o] == code
  }

  predicate CountersMatch(sys: State) {
    && (forall code :: code in sys.counters ==> sys.counters[code] == |Uses(sys.redemptions, code)|)
    && (forall o :: o in sys.redemptions ==> sys.redemptions[o] in sys.counters)
  }

  lemma CountersStep(sys: State, step: Step)
    requires CountersMatch(sys)
    ensures CountersMatch(Apply(sys, step))
  {
    var after := Apply(sys, step);
    if step.PromoRedeem? && step.p in sys.procs && sys.procs[step.p].Redeeming? {
      var Redeeming(o, code) := sys.procs[step.p];
      if o !in sys.redemptions && code in sys.counters { OneMoreUse(sys, o, code); }
    } else {
      assert after.counters == sys.counters && after.redemptions == sys.redemptions;
    }
  }

  lemma OneMoreUse(sys: State, o: nat, code: nat)
    requires CountersMatch(sys) && o !in sys.redemptions && code in sys.counters
    ensures CountersMatch(RedeemedBy(sys, o, code))
  {
    assert Uses(sys.redemptions[o := code], code) == Uses(sys.redemptions, code) + {o};
    assert forall other :: other != code ==> Uses(sys.redemptions[o := code], other) == Uses(sys.redemptions, other);
  }

  // ------------------------------------------------------------ one payment ----

  /** A process that has claimed `o` and has not finished with it. */
  predicate Working(proc: Proc, o: nat) {
    (proc.Granting? || proc.Looking? || proc.Redeeming?) && proc.order == o
  }

  function CodeOf(proc: Proc): Option<nat>
    requires proc.Granting? || proc.Looking? || proc.Redeeming?
  {
    if proc.Granting? then proc.promo else Some(proc.code)
  }

  ghost predicate HasWorker(sys: State, o: nat) {
    exists p :: p in sys.procs && Working(sys.procs[p], o)
  }

  ghost predicate WorkerFits(sys: State, p: nat, o: nat)
    requires p in sys.procs && Working(sys.procs[p], o)
  {
    && o in sys.orders && Settled(sys.orders[o]) && CodeOf(sys.procs[p]) == sys.orders[o].promo
    && sys.grants[o] == (if sys.procs[p].Granting? then 0 else 1) && o !in sys.redemptions
    && forall q :: q in sys.procs && Working(sys.procs[q], o) ==> q == p
  }

  /** Something is left to do for a paid order: its grant, or the redemption of a known code. */
  predicate Unfinished(sys: State, o: nat)
    requires o in sys.orders
  {
    sys.grants[o] == 0 || (sys.orders[o].promo.Some? && sys.orders[o].promo.value in sys.counters && o !in sys.redemptions)
  }

  /** Paid orders were claimed once, and are granted and redeemed or in the hands of exactly one process. */
  ghost predicate PaidOnce(sys: State, o: nat) {
    && sys.claims[o] == (if o in sys.orders && Settled(sys.orders[o]) then 1 else 0)
    && sys.grants[o] <= sys.claims[o]
    && (forall p :: p in sys.procs && Working(sys.procs[p], o) ==> WorkerFits(sys, p, o))
    && (o in sys.orders && Settled(sys.orders[o]) && Unfinished(sys, o) ==> HasWorker(sys, o))
    && (o in sys.redemptions ==> sys.grants[o] == 1 && o in sys.orders && sys.orders[o].promo == Some(sys.redemptions[o]))
  }

  /** Nothing PaidOnce speaks of changed for `o`. */
  ghost predicate Untouched(before: State, after: State, o: nat) {
    && (o in before.orders <==> o in after.orders)
    && (o in before.orders ==> after.orders[o].promo == before.orders[o].promo || !Settled(after.orders[o]))
    && (o in before.orders ==> (Settled(after.orders[o]) <==> Settled(before.orders[o])))
    && before.claims[o] == after.claims[o] && before.grants[o] == after.grants[o]
    && before.counters.Keys == after.counters.Keys
    && (o in before.redemptions <==> o in after.redemptions)
    && (o in before.redemptions ==> before.redemptions[o] == after.redemptions[o])
    && (forall p :: p in before.procs && Working(before.procs[p], o) ==> p in after.procs && after.procs[p] == before.procs[p])
    && (forall p :: p in after.procs && Working(after.procs[p], o) ==> p in before.procs && before.procs[p] == after.procs[p])
  }

  lemma UntouchedKeeps(before: State, after: State, o: nat)
    requires PaidOnce(before, o) && Untouched(before, after, o)
    ensures PaidOnce(after, o)
  {
    forall p | p in after.procs && Working(after.procs[p], o) ensures WorkerFits(after, p, o) {
      assert WorkerFits(before, p, o);
    }
    if o in after.orders && Settled(after.orders[o]) && Unfinished(after, o) {
      assert HasWorker(before, o);
    }
  }

  lemma ClaimKeeps(sys: State, p: nat, o: nat)
    requires PaidOnce(sys, o) && p in sys.procs && sys.procs[p].Claiming?
    ensures PaidOnce(Apply(sys, PayClaim(p)), o)
  {
    var after := Apply(sys, PayClaim(p));
    var Claiming(x, revivable, promo) := sys.procs[p];
    if x == o && o in sys.orders && Claimable(sys.orders[o], revivable) {
      assert forall q :: q in sys.procs ==> !Working(sys.procs[q], o);
      assert Working(after.procs[p], o);
    } else {
      UntouchedKeeps(sys, after, o);
    }
  }

  lemma GrantKeeps(sys: State, p: nat, o: nat)
    requires PaidOnce(sys, o) && p in sys.procs && sys.procs[p].Granting?
    ensures PaidOnce(Apply(sys, PayGrant(p)), o)
  {
    var after := Apply(sys, PayGrant(p));
    if sys.procs[p].order == o {
      assert WorkerFits(sys, p, o);
      if sys.procs[p].promo.Some? { assert Working(after.procs[p], o); }
    } else {
      UntouchedKeeps(sys, after, o);
    }
  }

  lemma LookupKeeps(sys: State, p: nat, o: nat)
    requires PaidOnce(sys, o) && p in sys.procs && sys.procs[p].Looking?
    ensures PaidOnce(Apply(sys, PromoLookup(p)), o)
  {
    var after := Apply(sys, PromoLookup(p));
    if sys.procs[p].order == o {
      assert WorkerFits(sys, p, o);
      if p in after.procs { assert Working(after.procs[p], o); }
    } else {
      UntouchedKeeps(sys, after, o);
    }
  }

  lemma RedeemKeeps(sys: State, p: nat, o: nat)
    requires PaidOnce(sys, o) && p in sys.procs && sys.procs[p].Redeeming?
    ensures PaidOnce(Apply(sys, PromoRedeem(p)), o)
  {
    var after := Apply(sys, PromoRedeem(p));
    if sys.procs[p].order == o {
      assert WorkerFits(sys, p, o);
    } else {
      UntouchedKeeps(sys, after, o);
    }
  }

  ghost predicate Inv(sys: State) {
    && (forall o :: PaidOnce(sys, o))
    && (forall p :: p in sys.procs && sys.procs[p].CheckingOut? ==> sys.procs[p].order in sys.orders)
  }

  lemma StepKeepsOrder(sys: State, step: Step, o: nat)
    requires Inv(sys) && Careful(sys, step)
    ensures PaidOnce(Apply(sys, step), o)
  {
    assert PaidOnce(sys, o);
    match step
    case Create(_, _, _) => CreateKeeps(sys, step, o);
    case PayClaim(p) =>
      if p in sys.procs && sys.procs[p].Claiming? { ClaimKeeps(sys, p, o); } else { UntouchedKeeps(sys, Apply(sys, step), o); }
    case PayGrant(p) =>
      if p in sys.procs && sys.procs[p].Granting? { GrantKeeps(sys, p, o); } else { UntouchedKeeps(sys, Apply(sys, step), o); }
    case PromoLookup(p) =>
      if p in sys.procs && sys.procs[p].Looking? { LookupKeeps(sys, p, o); } else { UntouchedKeeps(sys, Apply(sys, step), o); }
    case PromoRedeem(p) =>
      if p in sys.procs && sys.procs[p].Redeeming? { RedeemKeeps(sys, p, o); } else { UntouchedKeeps(sys, Apply(sys, step), o); }
    case _ =>
      OthersDoNotTouch(sys, step, o);
      UntouchedKeeps(sys, Apply(sys, step), o);
  }

  lemma CreateKeeps(sys: State, step: Step, o: nat)
    requires PaidOnce(sys, o) && step.Create?
    ensures PaidOnce(Apply(sys, step), o)
  {
    if step.o == o && o !in sys.orders && step.p !in sys.procs {
      assert forall q :: q in sys.procs ==> !Working(sys.procs[q], o);
    } else {
      UntouchedKeeps(sys, Apply(sys, step), o);
    }
  }

  lemma OthersDoNotTouch(sys: State, step: Step, o: nat)
    requires Careful(sys, step) && (forall p :: p in sys.procs && sys.procs[p].CheckingOut? ==> sys.procs[p].order in sys.orders)
    requires !step.Create? && !step.PayClaim? && !step.PayGrant? && !step.PromoLookup? && !step.PromoRedeem?
    ensures Untouched(sys, Apply(sys, step), o)
  {
  }

  lemma StepKeeps(sys: State, step: Step)
    requires Inv(sys) && Careful(sys, step)
    ensures Inv(Apply(sys, step))
  {
    forall o ensures PaidOnce(Apply(sys, step), o) { StepKeepsOrder(sys, step, o); }
  }

  lemma {:induction false} RunKeeps(sys: State, steps: seq<Step>)
    requires Inv(sys) && CarefulRun(sys, steps)
    ensures Inv(Run(sys, steps))
    decreases |steps|
  {
    if steps != [] {
      StepKeeps(sys, steps[0]);
      RunKeeps(Apply(sys, steps[0]), steps[1..]);
    }
  }

  lemma {:induction false} RunKeepsCounters(sys: State, steps: seq<Step>)
    requires CountersMatch(sys)
    ensures CountersMatch(Run(sys, steps))
    decreases |steps|
  {
    if steps != [] {
      CountersStep(sys, steps[0]);
      RunKeepsCounters(Apply(sys, steps[0]), steps[1..]);
    }
  }

  // --------------------------------------------------------- main results ----

  /** However events repeat, overtake or come late, an order is paid at most once and granted at most once. */
  lemma PaidAndGrantedAtMostOnce(start: State, steps: seq<Step>, o: nat)
    requires Initial(start) && CarefulRun(start, steps)
    ensures
      var sys := Run(start, steps);
      && sys.claims[o] <= 1 && sys.grants[o] <= sys.claims[o]
      && (o in sys.redemptions ==> sys.grants[o] == 1 && o in sys.orders && sys.orders[o].promo == Some(sys.redemptions[o]))
  {
    RunKeeps(start, steps);
    assert PaidOnce(Run(start, steps), o);
  }

  /** When nothing is left half done, exactly the paid and refunded orders were granted, and their codes redeemed. */
  lemma FinishedOrdersAreGranted(start: State, steps: seq<Step>, o: nat)
    requires Initial(start) && CarefulRun(start, steps)
    requires !HasWorker(Run(start, steps), o)
    ensures
      var sys := Run(start, steps);
      && sys.grants[o] == (if o in sys.orders && Settled(sys.orders[o]) then 1 else 0)
      && (o in sys.orders && Settled(sys.orders[o]) && sys.orders[o].promo.Some? && sys.orders[o].promo.value in sys.counters ==>
            o in sys.redemptions && sys.redemptions[o] == sys.orders[o].promo.value)
  {
    RunKeeps(start, steps);
    assert PaidOnce(Run(start, steps), o);
  }

  ghost predicate Lacks(sys: State, o: nat) {
    o in sys.orders && Settled(sys.orders[o]) && sys.grants[o] == 0
  }

  /** The code of a paid order is known and its redemption not written. */
  ghost predicate Unredeemed(sys: State, o: nat) {
    && o in sys.orders && Settled(sys.orders[o]) && o !in sys.redemptions
    && sys.orders[o].promo.Some? && sys.orders[o].promo.value in sys.counters
  }

  /**
   * A paid or refunded order is without its plan exactly while some process is between the claim and the
   * grant, and without its redemption exactly while some process still has it to write. A process that
   * has stopped there stays there.
   */
  lemma UngrantedIff(start: State, steps: seq<Step>, o: nat)
    requires Initial(start) && CarefulRun(start, steps)
    ensures
      var sys := Run(start, steps);
      && (Lacks(sys, o) <==> exists p :: p in sys.procs && sys.procs[p].Granting? && sys.procs[p].order == o)
      && (Unredeemed(sys, o) <==>
            exists p :: p in sys.procs && Working(sys.procs[p], o) && CodeOf(sys.procs[p]).Some? && CodeOf(sys.procs[p]).value in sys.counters)
  {
    RunKeeps(start, steps);
    var sys := Run(start, steps);
    assert PaidOnce(sys, o);
    if Lacks(sys, o) || Unredeemed(sys, o) {
      var p :| p in sys.procs && Working(sys.procs[p], o);
      assert WorkerFits(sys, p, o);
    }
    forall p | p in sys.procs && Working(sys.procs[p], o) ensures WorkerFits(sys, p, o) {}
  }

  lemma {:induction false} RunInTwo(sys: State, history: seq<Step>, future: seq<Step>)
    requires CarefulRun(sys, history + future)
    ensures CarefulRun(sys, history) && CarefulRun(Run(sys, history), future)
    decreases |history|
  {
    if history == [] {
      assert history + future == future;
    } else {
      assert (history + future)[1..] == history[1..] + future;
      RunInTwo(Apply(sys, history[0]), history[1..], future);
    }
  }

  lemma {:induction false} WorkerStandsStill(sys: State, future: seq<Step>, p: nat)
    requires p in sys.procs && sys.procs[p].Granting? && forall k :: 0 <= k < |future| ==> future[k] != PayGrant(p)
    ensures p in Run(sys, future).procs && Run(sys, future).procs[p] == sys.procs[p]
    decreases |future|
  {
    if future != [] { WorkerStandsStill(Apply(sys, future[0]), future[1..], p); }
  }

  /**
   * The price of claiming before granting: when the process that claimed an order stops before it has
   * granted, no event, revival or administrator ever grants that order, which stays paid and without
   * its plan. Only the step that process did not take does it.
   */
  lemma StrandedForever(start: State, history: seq<Step>, future: seq<Step>, p: nat, o: nat)
    requires Initial(start) && CarefulRun(start, history + future)
    requires
      var sys := Run(start, history);
      p in sys.procs && sys.procs[p].Granting? && sys.procs[p].order == o
    requires forall k :: 0 <= k < |future| ==> future[k] != PayGrant(p)
    ensures
      var end := Run(start, history + future);
      && end.grants[o] == 0 && o in end.orders && Settled(end.orders[o]) && end.claims[o] == 1
      && Apply(end, PayGrant(p)).grants[o] == 1
  {
    RunInTwo(start, history, future);
    RunThrough(start, history, future);
    RunKeeps(start, history);
    RunKeeps(Run(start, history), future);
    WorkerStandsStill(Run(start, history), future, p);
    GrantIsLeft(Run(start, history + future), p, o);
  }

  lemma GrantIsLeft(sys: State, p: nat, o: nat)
    requires Inv(sys) && p in sys.procs && sys.procs[p].Granting? && sys.procs[p].order == o
    ensures sys.grants[o] == 0 && o in sys.orders && Settled(sys.orders[o]) && sys.claims[o] == 1
    ensures Apply(sys, PayGrant(p)).grants[o] == 1
  {
    assert PaidOnce(sys, o) && WorkerFits(sys, p, o);
  }

  /** In every run, careful or not, a promo's counter is the number of its redemption rows. */
  lemma CounterCountsRedemptions(start: State, steps: seq<Step>, code: nat)
    requires Initial(start) && code in Run(start, steps).counters
    ensures Run(start, steps).counters[code] == |Uses(Run(start, steps).redemptions, code)|
  {
    assert forall c :: Uses(start.redemptions, c) == {};
    RunKeepsCounters(start, steps);
  }

  /**
   * The status write of a failed checkout has no guard. Exactly when it meets an order that has been
   * paid, the order can be paid and granted again: the next repeated success event does it.
   */
  lemma FailedCheckoutIsHarmlessIff(sys: State, p: nat, q: nat)
    requires Inv(sys) && p in sys.procs && sys.procs[p].CheckingOut? && q !in sys.procs
    ensures
      var o := sys.procs[p].order;
      var failed := Apply(sys, CheckoutFails(p));
      var again := Apply(Apply(Apply(failed, PayRead(q, o, true)), PayClaim(q)), PayGrant(q));
      (PaidOnce(failed, o) <==> !Settled(sys.orders[o])) && (Settled(sys.orders[o]) ==> again.claims[o] == 2 && again.grants[o] > sys.grants[o])
  {
    var o := sys.procs[p].order;
    var failed := Apply(sys, CheckoutFails(p));
    assert PaidOnce(sys, o);
    if !Settled(sys.orders[o]) {
      StepKeepsOrder(sys, CheckoutFails(p), o);
    } else {
      assert failed.claims[o] == 1 && !Settled(failed.orders[o]);
      var read := Apply(failed, PayRead(q, o, true));
      assert read.procs[q] == Claiming(o, true, None);
      var claimed := Apply(read, PayClaim(q));
      assert claimed.procs[q] == Granting(o, None);
    }
  }

  const PAID_WHILE_CHECKING_OUT: seq<Step> := [
    Create(0, 7, None), PayRead(1, 7, true), PayClaim(1), PayGrant(1),
    CheckoutFails(0),
    PayRead(1, 7, true), PayClaim(1), PayGrant(1)]

  lemma CheckoutKills(sys: State)
    requires sys.procs == map[0 := CheckingOut(7)] && sys.orders == map[7 := Order(Paid, None)]
    ensures Apply(sys, CheckoutFails(0)) == sys.(orders := map[7 := Order(Dead, None)], procs := map[])
  {
    assert sys.procs - {0} == map[];
  }

  /** The gateway answers the checkout with an error after its success event has been handled; the event is delivered again. */
  lemma GrantedTwice(start: State)
    requires Initial(start)
    ensures Run(start, PAID_WHILE_CHECKING_OUT).claims[7] == 2 && Run(start, PAID_WHILE_CHECKING_OUT).grants[7] == 2
  {
    var created := start.(orders := map[7 := Order(Unpaid, None)], procs := map[0 := CheckingOut(7)]);
    assert Apply(start, Create(0, 7, None)) == created;
    var paid := created.(orders := map[7 := Order(Paid, None)], claims := multiset{7}, grants := multiset{7});
    PaidInThree(created, 7, false);
    assert Apply(Apply(Apply(created, PayRead(1, 7, true)), PayClaim(1)), PayGrant(1)) == paid;
    var failed := paid.(orders := map[7 := Order(Dead, None)], procs := map[]);
    CheckoutKills(paid);
    PaidInThree(failed, 7, true);
    RunEight(start);
  }

  lemma PaidInThree(sys: State, o: nat, dead: bool)
    requires 1 !in sys.procs && o in sys.orders && sys.orders[o] == Order(if dead then Dead else Unpaid, None)
    ensures Apply(Apply(Apply(sys, PayRead(1, o, true)), PayClaim(1)), PayGrant(1)) ==
      sys.(orders := sys.orders[o := Order(Paid, None)], claims := sys.claims + multiset{o}, grants := sys.grants + multiset{o})
  {
    GrantedAfterThree(sys, 1, o, true,
      sys.(orders := sys.orders[o := Order(Paid, None)], claims := sys.claims + multiset{o}, grants := sys.grants + multiset{o}));
  }

  lemma RunEight(start: State)
    ensures Run(start, PAID_WHILE_CHECKING_OUT) ==
      var failed := Apply(Apply(Apply(Apply(Apply(start, Create(0, 7, None)), PayRead(1, 7, true)), PayClaim(1)), PayGrant(1)), CheckoutFails(0));
      Apply(Apply(Apply(failed, PayRead(1, 7, true)), PayClaim(1)), PayGrant(1))
  {
    var steps := PAID_WHILE_CHECKING_OUT;
    RunFive(start, steps[0], steps[1], steps[2], steps[3], steps[4]);
    var first := [steps[0], steps[1], steps[2], steps[3], steps[4]];
    var failed := Run(start, first);
    assert steps == first + ([PayRead(1, 7, true)] + ([PayClaim(1)] + ([PayGrant(1)] + [])));
    RunThrough(start, first, [PayRead(1, 7, true)] + ([PayClaim(1)] + ([PayGrant(1)] + [])));
    RunFirst(failed, PayRead(1, 7, true), [PayClaim(1)] + ([PayGrant(1)] + []));
    RunFirst(Apply(failed, PayRead(1, 7, true)), PayClaim(1), [PayGrant(1)] + []);
    RunFirst(Apply(Apply(failed, PayRead(1, 7, true)), PayClaim(1)), PayGrant(1), []);
  }

  lemma {:induction false} RunThrough(sys: State, history: seq<Step>, future: seq<Step>)
    ensures Run(sys, history + future) == Run(Run(sys, history), future)
    decreases |history|
  {
    if history == [] {
      assert history + future == future;
    } else {
      assert (history + future)[1..] == history[1..] + future;
      RunThrough(Apply(sys, history[0]), history[1..], future);
    }
  }

  // ------------------------------------------------------------ the handlers ----

  datatype PayError = NotFound | NotPayable

  class OrderBook {
    var orders: map<nat, Order>
    var counters: map<nat, nat>
    var redemptions: map<nat, nat>
    var claims: multiset<nat>
    var grants: multiset<nat>

    /** The tables together with whatever other requests are between two statements. */
    ghost function With(procs: map<nat, Proc>): State
      reads this
    {
      State(orders, claims, grants, counters, redemptions, procs)
    }

    constructor (codes: set<nat>)
      ensures Initial(With(map[]))
    {
      orders, redemptions, claims, grants := map[], map[], multiset{}, multiset{};
      counters := map code | code in codes :: 0;
    }

    method MarkOrderPaid(o: nat, revive: bool, ghost procs: map<nat, Proc>) returns (r: Result<bool, PayError>)
      modifies this
      ensures With(procs) == PaidBy(old(With(procs)), o, revive)
      ensures r == Err(NotFound) <==> o !in old(orders)
      ensures r == Ok(true) <==>
        o in old(orders) && (old(orders)[o].status == Unpaid || (revive && (old(orders)[o].status == Dead || old(orders)[o].status == Cancelled)))
      ensures r == Ok(false) <==> o in old(orders) && old(orders)[o].status == Paid
      ensures r == Ok(true) ==>
        && orders == old(orders)[o := old(orders)[o].(status := Paid)]
        && claims == old(claims) + multiset{o} && grants == old(grants) + multiset{o}
        && match old(orders)[o].promo
           case None => redemptions == old(redemptions) && counters == old(counters)
           case Some(code) =>
             if o in old(redemptions) || code !in old(counters) then redemptions == old(redemptions) && counters == old(counters)
             else redemptions == old(redemptions)[o := code] && counters == old(counters)[code := old(counters)[code] + 1]
      ensures r != Ok(true) ==>
        orders == old(orders) && claims == old(claims) && grants == old(grants) && redemptions == old(redemptions) && counters == old(counters)
    {
      if o !in orders { return Err(NotFound); }
      var order := orders[o];
      if order.status.Paid? { return Ok(false); }
      var revivable := revive && (order.status.Dead? || order.status.Cancelled?);
      if !order.status.Unpaid? && !revivable { return Err(NotPayable); }
      orders := orders[o := Order(Paid, order.promo)];
      claims := claims + multiset{o};
      grants := grants + multiset{o};
      if order.promo.Some? { RedeemPromo(o, order.promo.value, procs); }
      return Ok(true);
    }

    /** A redemption is written and its code's counter raised by one exactly when the order has none yet; the two stay in step. */
    method RedeemPromo(o: nat, code: nat, ghost procs: map<nat, Proc>)
      modifies this`counters, this`redemptions
      ensures With(procs) == RedeemedBy(old(With(procs)), o, code)
      ensures o !in old(redemptions) && code in old(counters) ==>
        && o in redemptions && redemptions[o] == code && counters[code] == old(counters)[code] + 1
        && redemptions.Keys == old(redemptions).Keys + {o} && counters.Keys == old(counters).Keys
      ensures o in old(redemptions) || code !in old(counters) ==> redemptions == old(redemptions) && counters == old(counters)
      ensures forall other :: other in old(redemptions) ==> other in redemptions && redemptions[other] == old(redemptions)[other]
      ensures forall other :: other in old(counters) && other != code ==> other in counters && counters[other] == old(counters)[other]
      ensures CountersMatch(old(With(procs))) ==> CountersMatch(With(procs))
    {
      if CountersMatch(With(procs)) && o !in redemptions && code in counters { OneMoreUse(With(procs), o, code); }
      if code !in counters { return; }
      if o in redemptions { return; }
      redemptions := redemptions[o := code];
      counters := counters[code := counters[code] + 1];
    }

    /** cancelOrder and markOrderFailed: only an order that is still pending dies. */
    method MarkOrderFailed(o: nat, status: OrderStatus, ghost procs: map<nat, Proc>) returns (died: bool)
      requires status.Dead? || status.Cancelled?
      modifies this`orders
      ensures With(procs) == Apply(old(With(procs)), Fail(o, status))
      ensures died <==> o in old(orders) && old(orders)[o].status == Unpaid
      ensures orders == if died then old(orders)[o := old(orders)[o].(status := status)] else old(orders)
    {
      died := o in orders && orders[o].status.Unpaid?;
      if died { orders := orders[o := orders[o].(status := status)]; }
    }

    /** No stale order is left pending; an order that was not, or is not stale, is as it was. */
    method ExpireStaleOrders(stale: set<nat>, ghost procs: map<nat, Proc>)
      modifies this`orders
      ensures With(procs) == Apply(old(With(procs)), Expire(stale))
      ensures orders.Keys == old(orders).Keys
      ensures forall o :: o in orders && o in stale ==> !orders[o].status.Unpaid?
      ensures forall o :: o in orders && orders[o] != old(orders)[o] ==>
        o in stale && old(orders)[o].status.Unpaid? && orders[o] == Order(Cancelled, old(orders)[o].promo)
    {
      orders := map o | o in orders :: if o in stale && orders[o].status.Unpaid? then orders[o].(status := Cancelled) else orders[o];
    }

    method MarkOrderRefunded(o: nat, ghost procs: map<nat, Proc>) returns (refunded: bool)
      modifies this`orders
      ensures With(procs) == Apply(old(With(procs)), Refund(o))
      ensures refunded <==> o in old(orders) && old(orders)[o].status == Paid
      ensures orders == if refunded then old(orders)[o := old(orders)[o].(status := Refunded)] else old(orders)
    {
      refunded := o in orders && orders[o].status.Paid?;
      if refunded { orders := orders[o := orders[o].(status := Refunded)]; }
    }

    method HandleEvent(o: nat, event: Event, ghost procs: map<nat, Proc>) returns (r: Result<bool, PayError>)
      modifies this
      ensures r == Ok(true) ==> o in old(orders) && !event.Other?
      ensures r == Ok(false) <==> o !in old(orders) || event.Other?
      ensures With(procs) == Handled(old(With(procs)), o, event)
      ensures orders.Keys == old(orders).Keys && forall other :: other in orders && other != o ==> orders[other] == old(orders)[other]
      ensures o in orders ==>
        var before := old(orders)[o];
        orders[o] ==
          match event
          case Success => if before.status in {Unpaid, Dead, Cancelled} then before.(status := Paid) else before
          case Failure(status) => if before.status == Unpaid then before.(status := status) else before
          case Refunding => if before.status == Paid then before.(status := Refunded) else before
          case Other => before
    {
      if o !in orders { return Ok(false); }
      match event
      case Success =>
        var paid := MarkOrderPaid(o, true, procs);
        return if paid.Ok? then Ok(true) else Err(paid.error);
      case Failure(status) =>
        var died := MarkOrderFailed(o, status, procs);
        return Ok(true);
      case Refunding =>
        var refunded := MarkOrderRefunded(o, procs);
        return Ok(true);
      case Other => return Ok(false);
    }
  }

  type DeadStatus = status: OrderStatus | status.Dead? || status.Cancelled? witness Dead

  datatype Event = Success | Failure(status: DeadStatus) | Refunding | Other

  function RedeemedBy(sys: State, o: nat, code: nat): State {
    if code !in sys.counters || o in sys.redemptions then sys
    else sys.(redemptions := sys.redemptions[o := code], counters := sys.counters[code := sys.counters[code] + 1])
  }

  function PaidBy(sys: State, o: nat, revive: bool): State {
    if o !in sys.orders || !Claimable(sys.orders[o], revive) then sys
    else
      var promo := sys.orders[o].promo;
      var granted := sys.(orders := sys.orders[o := Order(Paid, promo)], claims := sys.claims + multiset{o}, grants := sys.grants + multiset{o});
      if promo.Some? then RedeemedBy(granted, o, promo.value) else granted
  }

  function Handled(sys: State, o: nat, event: Event): State {
    match event
    case Success => PaidBy(sys, o, true)
    case Failure(status) => Apply(sys, Fail(o, status))
    case Refunding => Apply(sys, Refund(o))
    case Other => sys
  }

  /** The payment steps of process `p`, taken one after the other. */
  function PaySteps(p: nat, o: nat, revive: bool): seq<Step> {
    [PayRead(p, o, revive), PayClaim(p), PayGrant(p), PromoLookup(p), PromoRedeem(p)]
  }

  lemma RunFive(sys: State, a: Step, b: Step, c: Step, d: Step, e: Step)
    ensures Run(sys, [a, b, c, d, e]) == Apply(Apply(Apply(Apply(Apply(sys, a), b), c), d), e)
  {
    var s1 := Apply(sys, a);
    var s2 := Apply(s1, b);
    var s3 := Apply(s2, c);
    var s4 := Apply(s3, d);
    RunFirst(sys, a, [b, c, d, e]);
    RunFirst(s1, b, [c, d, e]);
    RunFirst(s2, c, [d, e]);
    RunFirst(s3, d, [e]);
    RunFirst(s4, e, []);
  }

  lemma RunFirst(sys: State, step: Step, rest: seq<Step>)
    ensures Run(sys, [step] + rest) == Run(Apply(sys, step), rest)
  {
    assert ([step] + rest)[1..] == rest;
  }

  /** markOrderPaid without interruption is what its five steps come to. */
  lemma PaymentIsItsSteps(sys: State, p: nat, o: nat, revive: bool)
    requires p !in sys.procs
    ensures Run(sys, PaySteps(p, o, revive)) == PaidBy(sys, o, revive)
  {
    RunFive(sys, PayRead(p, o, revive), PayClaim(p), PayGrant(p), PromoLookup(p), PromoRedeem(p));
    var read := Apply(sys, PayRead(p, o, revive));
    if o in sys.orders && Claimable(sys.orders[o], revive) {
      var promo := sys.orders[o].promo;
      var granted := sys.(orders := sys.orders[o := Order(Paid, promo)], claims := sys.claims + multiset{o}, grants := sys.grants + multiset{o});
      GrantedAfterThree(sys, p, o, revive, granted);
      RedeemedAfterTwo(granted, p, o, promo);
    } else {
      assert read == sys;
    }
  }

  lemma GrantedAfterThree(sys: State, p: nat, o: nat, revive: bool, granted: State)
    requires p !in sys.procs && o in sys.orders && Claimable(sys.orders[o], revive)
    requires granted == sys.(orders := sys.orders[o := Order(Paid, sys.orders[o].promo)],
                             claims := sys.claims + multiset{o}, grants := sys.grants + multiset{o})
    ensures
      Apply(Apply(Apply(sys, PayRead(p, o, revive)), PayClaim(p)), PayGrant(p)) ==
        var promo := sys.orders[o].promo;
        if promo.Some? then Goes(granted, p, Looking(o, promo.value)) else granted
  {
    var read := Apply(sys, PayRead(p, o, revive));
    var claimed := Apply(read, PayClaim(p));
    assert claimed.procs == sys.procs[p := Granting(o, sys.orders[o].promo)];
    assert Apply(claimed, PayGrant(p)).procs == if sys.orders[o].promo.Some? then sys.procs[p := Looking(o, sys.orders[o].promo.value)] else sys.procs;
  }

  lemma RedeemedAfterTwo(granted: State, p: nat, o: nat, promo: Option<nat>)
    requires p !in granted.procs
    ensures
      var before := if promo.Some? then Goes(granted, p, Looking(o, promo.value)) else granted;
      Apply(Apply(before, PromoLookup(p)), PromoRedeem(p)) == if promo.Some? then RedeemedBy(granted, o, promo.value) else granted
  {
    if promo.Some? {
      var before := Goes(granted, p, Looking(o, promo.value));
      assert Ends(before, p) == granted;
      if promo.value in granted.counters && o !in granted.redemptions {
        var found := Goes(before, p, Redeeming(o, promo.value));
        assert Apply(before, PromoLookup(p)) == found;
        assert Ends(found, p) == granted;
      }
    }
  }

  /** A gateway event delivered again and again after it was handled changes nothing more. */
  lemma RepeatedEventIsIgnored(sys: State, o: nat, event: Event)
    ensures Handled(Handled(sys, o, event), o, event) == Handled(sys, o, event)
  {
  }

  function HandledAll(sys: State, o: nat, events: seq<Event>): State
    decreases |events|
  {
    if events == [] then sys else HandledAll(Handled(sys, o, events[0]), o, events[1..])
  }

  lemma {:induction false} SettledStays(sys: State, o: nat, events: seq<Event>)
    requires o in sys.orders && Settled(sys.orders[o])
    ensures
      var after := HandledAll(sys, o, events);
      o in after.orders && Settled(after.orders[o]) && after.grants == sys.grants
    decreases |events|
  {
    if events != [] { SettledStays(Handled(sys, o, events[0]), o, events[1..]); }
  }

  /**
   * Duplicated, reordered and late events do not matter: whatever gateway events arrive for an unpaid
   * order and in whatever order, it is granted once if a success is among them and never otherwise.
   */
  lemma {:induction false} SuccessDecides(sys: State, o: nat, events: seq<Event>)
    requires o in sys.orders && !Settled(sys.orders[o])
    ensures
      var after := HandledAll(sys, o, events);
      && o in after.orders
      && (Settled(after.orders[o]) <==> Success in events)
      && after.grants == if Success in events then sys.grants + multiset{o} else sys.grants
    decreases |events|
  {
    if events != [] {
      var next := Handled(sys, o, events[0]);
      if events[0].Success? {
        SettledStays(next, o, events[1..]);
      } else {
        assert !Settled(next.orders[o]) && next.grants == sys.grants;
        SuccessDecides(next, o, events[1..]);
        assert Success in events <==> Success in events[1..];
      }
    }
  }
}
