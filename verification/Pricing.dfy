/**
 * Plan prices by currency, promo discounts, and the two places that must agree on them: the quote
 * shown for a code and the order that is charged.
 */
module Pricing {
  import opened Rows
  import opened Text

  const SUPPORTED_CURRENCIES := ["KZT", "RUB", "USD"]

  function NormalizeCurrency(raw: Option<string>): (r: Option<string>)
    ensures r.Some? ==> r.value in SUPPORTED_CURRENCIES
  {
    if raw.None? || raw.value == "" then None
    else
      var upper := Upper(Trim(raw.value));
      if upper in SUPPORTED_CURRENCIES then Some(upper) else None
  }

  /** `raw` is `currency` in any letter case with any white space around it. */
  ghost predicate Spells(raw: string, currency: string) {
    exists before, core, after :: raw == before + core + after && AllSpace(before) && AllSpace(after) && SameLetters(core, currency)
  }

  /** Letter by letter the same capital, its small letter, or the long s for an S. */
  predicate SameLetters(core: string, currency: string) {
    |core| == |currency| && forall i :: 0 <= i < |core| ==>
      core[i] == currency[i] || core[i] as int == currency[i] as int + 32 || (core[i] == '\U{017F}' && currency[i] == 'S')
  }

  lemma UpperMeans(core: string, currency: string)
    requires currency in SUPPORTED_CURRENCIES
    ensures SameLetters(core, currency) <==> Upper(core) == currency
  {
    if SameLetters(core, currency) {
      forall i | 0 <= i < |core| ensures UpperChar(core[i]) == currency[i] {
        assert currency[i] in {'K', 'Z', 'T', 'R', 'U', 'B', 'S', 'D'};
      }
    }
  }

  /** A currency is understood exactly when it is one that is held, however it is spelled. */
  lemma UnderstoodIff(raw: string, currency: string)
    requires currency in SUPPORTED_CURRENCIES
    ensures NormalizeCurrency(Some(raw)) == Some(currency) <==> Spells(raw, currency)
  {
    if NormalizeCurrency(Some(raw)) == Some(currency) {
      var before := TrimStartKeeps(raw);
      var after := TrimEndKeeps(TrimStart(raw));
      UpperMeans(Trim(raw), currency);
      assert raw == before + Trim(raw) + after;
    }
    if before, core, after :| raw == before + core + after && AllSpace(before) && AllSpace(after) && SameLetters(core, currency) {
      UpperMeans(core, currency);
      assert |core| == 3 && UpperChar(core[0]) == currency[0] && UpperChar(core[2]) == currency[2];
      assert before + core + after == before + (core + after);
      TrimStartDrops(before, core + after);
      TrimEndDrops(core, after);
      assert raw != "";
    }
  }

  datatype PlanPrice = PlanPrice(currency: string, priceMinor: int)

  datatype PricedPlan = PricedPlan(code: string, active: bool, isPublic: bool, priceMinor: int, currency: string, prices: seq<PlanPrice>)

  datatype ResolvedPrice = ResolvedPrice(priceMinor: int, currency: string)

  /** The first row in the wanted currency. */
  function FindPrice(prices: seq<PlanPrice>, wanted: string): Option<PlanPrice> {
    if prices == [] then None
    else if Upper(prices[0].currency) == wanted then Some(prices[0])
    else FindPrice(prices[1..], wanted)
  }

  function ResolvePlanPrice(plan: PricedPlan, currency: Option<string>): ResolvedPrice {
    if plan.priceMinor == 0 then ResolvedPrice(0, if currency.Some? then currency.value else plan.currency)
    else
      var wanted := NormalizeCurrency(currency);
      if wanted.None? || wanted.value == Upper(plan.currency) then ResolvedPrice(plan.priceMinor, plan.currency)
      else
        var row := FindPrice(plan.prices, wanted.value);
        if row.Some? then ResolvedPrice(row.value.priceMinor, wanted.value) else ResolvedPrice(plan.priceMinor, plan.currency)
  }

  /** Row `i` is the first in a currency that was asked for and is not the plan's own. */
  ghost predicate Answers(plan: PricedPlan, asked: Option<string>, i: int) {
    && 0 <= i < |plan.prices|
    && var held := Upper(plan.prices[i].currency);
       && held in ["KZT", "RUB", "USD"] && held != Upper(plan.currency)
       && asked.Some? && Spells(asked.value, held)
       && forall j :: 0 <= j < i ==> Upper(plan.prices[j].currency) != held
  }

  /**
   * A plan costs what its row in the currency asked for says, named by that currency, or its own price
   * in its own currency when there is no such row; a free plan costs nothing in any currency.
   */
  lemma PriceIsListed(plan: PricedPlan, asked: Option<string>)
    ensures
      var price := ResolvePlanPrice(plan, asked);
      && (plan.priceMinor == 0 ==> price == ResolvedPrice(0, if asked.Some? then asked.value else plan.currency))
      && (plan.priceMinor != 0 ==>
            && (forall i :: Answers(plan, asked, i) ==> price == ResolvedPrice(plan.prices[i].priceMinor, Upper(plan.prices[i].currency)))
            && ((forall i :: !Answers(plan, asked, i)) ==> price == ResolvedPrice(plan.priceMinor, plan.currency)))
  {
    if plan.priceMinor != 0 {
      forall i | Answers(plan, asked, i)
        ensures ResolvePlanPrice(plan, asked) == ResolvedPrice(plan.prices[i].priceMinor, Upper(plan.prices[i].currency))
      {
        UnderstoodIff(asked.value, Upper(plan.prices[i].currency));
        FoundFirst(plan.prices, Upper(plan.prices[i].currency), i);
      }
      var wanted := NormalizeCurrency(asked);
      if wanted.Some? && wanted.value != Upper(plan.currency) && FindPrice(plan.prices, wanted.value).Some? {
        UnderstoodIff(asked.value, wanted.value);
        var i := FoundAt(plan.prices, wanted.value);
        assert Answers(plan, asked, i);
      }
    }
  }

  lemma {:induction false} FoundFirst(prices: seq<PlanPrice>, wanted: string, i: nat)
    requires i < |prices| && Upper(prices[i].currency) == wanted
    requires forall j :: 0 <= j < i ==> Upper(prices[j].currency) != wanted
    ensures FindPrice(prices, wanted) == Some(prices[i])
  {
    if i > 0 { FoundFirst(prices[1..], wanted, i - 1); }
  }

  lemma {:induction false} FoundAt(prices: seq<PlanPrice>, wanted: string) returns (i: nat)
    requires FindPrice(prices, wanted).Some?
    ensures i < |prices| && Upper(prices[i].currency) == wanted && forall j :: 0 <= j < i ==> Upper(prices[j].currency) != wanted
  {
    if Upper(prices[0].currency) == wanted {
      i := 0;
    } else {
      var k := FoundAt(prices[1..], wanted);
      i := k + 1;
      assert forall j :: 0 < j < i ==> prices[j] == prices[1..][j - 1];
    }
  }

  /** Two requests that are answered in the same currency are answered with the same price. */
  lemma CurrencyDeterminesPrice(plan: PricedPlan, a: Option<string>, b: Option<string>)
    requires Upper(ResolvePlanPrice(plan, a).currency) == Upper(ResolvePlanPrice(plan, b).currency)
    ensures ResolvePlanPrice(plan, a).priceMinor == ResolvePlanPrice(plan, b).priceMinor
  {
    SupportedIsUpper();
  }

  lemma SupportedIsUpper()
    ensures forall c :: c in SUPPORTED_CURRENCIES ==> Upper(c) == c
  {
    assert Upper("KZT") == "KZT" && Upper("RUB") == "RUB" && Upper("USD") == "USD";
  }

  // -------------------------------------------------------------- promo ----

  datatype Promo = Promo(
    percentOff: nat, active: bool, startsAt: Option<int>, endsAt: Option<int>,
    planCodes: seq<string>, maxRedemptions: Option<nat>, redeemedCount: nat, perUserLimit: nat)

  datatype Refusal =
    | NotFound | Inactive | NotStarted | Ended | PlanNotEligible | LimitReached | AlreadyUsed | TooSmall
    | NoPlan | FreePlan | NotPriced

  datatype Application = Application(percentOff: nat, discountMinor: int, amountMinor: int)

  /** Math.round(amount * percent / 100): halves go up. */
  function RoundPercent(amount: int, percent: nat): int {
    (amount * percent + 50) / 100
  }

  /** The code is active, in its time, made for the plan, and within both its limits. */
  predicate Usable(p: Promo, used: Option<nat>, planCode: string, at: int) {
    && p.active && (p.startsAt.Some? ==> p.startsAt.value <= at) && (p.endsAt.Some? ==> at < p.endsAt.value)
    && (p.planCodes == [] || planCode in p.planCodes)
    && (p.maxRedemptions.Some? ==> p.redeemedCount < p.maxRedemptions.value)
    && (p.perUserLimit == 0 || used.None? || used.value < p.perUserLimit)
  }

  /** `used` is how many redemptions the paying account has; a guest has no account. */
  function ApplyPromo(promo: Option<Promo>, used: Option<nat>, planCode: string, amountMinor: int, minimumMinor: int, at: int)
    : (r: Result<Application, Refusal>)
    ensures r.Ok? ==>
      && r.value.amountMinor + r.value.discountMinor == amountMinor
      && r.value.discountMinor > 0 && r.value.amountMinor >= Max(1, minimumMinor)
    ensures r.Ok? <==>
      && promo.Some? && Usable(promo.value, used, planCode, at)
      && amountMinor * promo.value.percentOff >= 50 && amountMinor > Max(1, minimumMinor)
    ensures r.Ok? ==> r.value.percentOff == promo.value.percentOff
  {
    if promo.None? then Err(NotFound)
    else
      var p := promo.value;
      if !p.active then Err(Inactive)
      else if p.startsAt.Some? && p.startsAt.value > at then Err(NotStarted)
      else if p.endsAt.Some? && p.endsAt.value <= at then Err(Ended)
      else if p.planCodes != [] && planCode !in p.planCodes then Err(PlanNotEligible)
      else if p.maxRedemptions.Some? && p.redeemedCount >= p.maxRedemptions.value then Err(LimitReached)
      else if p.perUserLimit > 0 && used.Some? && used.value >= p.perUserLimit then Err(AlreadyUsed)
      else
        var floor := Max(1, minimumMinor);
        var discount := Max(0, Min(RoundPercent(amountMinor, p.percentOff), amountMinor - floor));
        if discount <= 0 then Err(TooSmall) else Ok(Application(p.percentOff, discount, amountMinor - discount))
  }

  /** The discount is the rounded percentage unless the gateway's floor takes some of it back. */
  lemma DiscountIs(promo: Promo, used: Option<nat>, planCode: string, amountMinor: int, minimumMinor: int, at: int)
    requires amountMinor >= 0
    ensures
      var r := ApplyPromo(Some(promo), used, planCode, amountMinor, minimumMinor, at);
      r.Ok? ==>
        && 100 * r.value.discountMinor <= amountMinor * promo.percentOff + 50
        && (r.value.amountMinor > Max(1, minimumMinor) ==> amountMinor * promo.percentOff - 50 < 100 * r.value.discountMinor)
  {
  }

  // ----------------------------------------------------- order and quote ----

  /** What both handlers read: catalogue, promo code, gateway settings, clock. */
  datatype Shop = Shop(plan: Option<PricedPlan>, promo: Option<Promo>, settle: Option<string>, minimumMinor: int, at: int)

  datatype Charge = Charge(currency: string, amountMinor: int, discountMinor: int, quoted: ResolvedPrice)

  /** Both routes of the site read the currency the same way: the one asked for if it is held, else the visitor's market. */
  function Wanted(asked: Option<string>, market: string): Option<string> {
    var normal := NormalizeCurrency(asked);
    if normal.Some? then normal else Some(market)
  }

  /** What is charged before any discount: the price in the gateway's one currency, or the one quoted. */
  function PriceOf(shop: Shop, currency: Option<string>): ResolvedPrice
    requires shop.plan.Some?
  {
    ResolvePlanPrice(shop.plan.value, if shop.settle.Some? then shop.settle else currency)
  }

  /**
   * The charge for a plan that is for sale, in the gateway's currency, less what the code takes off. The
   * site names a currency, the bot does not; the trial alone may order a plan that is hidden.
   */
  function CreateOrder(shop: Shop, currency: Option<string>, allowHidden: bool, withPromo: bool, used: nat): (r: Result<Charge, Refusal>)
    ensures r.Ok? <==>
      && shop.plan.Some? && shop.plan.value.active && (shop.plan.value.isPublic || allowHidden) && shop.plan.value.priceMinor > 0
      && var price := PriceOf(shop, currency);
         && (shop.settle.Some? ==> Upper(price.currency) == shop.settle.value)
         && (withPromo ==>
               && shop.promo.Some? && Usable(shop.promo.value, Some(used), shop.plan.value.code, shop.at)
               && price.priceMinor * shop.promo.value.percentOff >= 50 && price.priceMinor > Max(1, shop.minimumMinor))
    ensures r.Ok? ==>
      && r.value.currency == PriceOf(shop, currency).currency
      && r.value.amountMinor + r.value.discountMinor == PriceOf(shop, currency).priceMinor
      && (r.value.discountMinor > 0 <==> withPromo)
  {
    if shop.plan.None? || !shop.plan.value.active || !(shop.plan.value.isPublic || allowHidden) then Err(NoPlan)
    else
      var plan := shop.plan.value;
      if plan.priceMinor <= 0 then Err(FreePlan)
      else
        var quoted := ResolvePlanPrice(plan, currency);
        var price := if shop.settle.Some? then ResolvePlanPrice(plan, shop.settle) else quoted;
        if shop.settle.Some? && Upper(price.currency) != shop.settle.value then Err(NotPriced)
        else if !withPromo then Ok(Charge(price.currency, price.priceMinor, 0, quoted))
        else
          var promo := ApplyPromo(shop.promo, Some(used), plan.code, price.priceMinor, shop.minimumMinor, shop.at);
          if promo.Err? then Err(promo.error)
          else Ok(Charge(price.currency, promo.value.amountMinor, promo.value.discountMinor, quoted))
  }

  /** An order of the account for the plan; `usable` says that it is with the present gateway and can be paid there. */
  datatype OpenOrder = OpenOrder(pending: bool, recent: bool, amountMinor: int, currency: string, usable: bool)

  /** What the gateway says of an open order. */
  datatype Verdict = StillPayable | PaidMeanwhile | Over

  datatype Placed = Reused(at: nat) | Settled(at: nat) | Fresh(charge: Charge)

  predicate Fits(order: OpenOrder, charge: Charge) {
    order.pending && order.recent && order.amountMinor == charge.amountMinor && order.currency == charge.currency
  }

  /** The order the query finds first, if any. */
  function FindOpen(orders: seq<OpenOrder>, charge: Charge): (found: Option<nat>)
    ensures found.Some? ==> found.value < |orders| && Fits(orders[found.value], charge)
    ensures found.Some? <==> exists i :: 0 <= i < |orders| && Fits(orders[i], charge)
  {
    if orders == [] then None
    else if Fits(orders[0], charge) then Some(0)
    else
      var rest := FindOpen(orders[1..], charge);
      assert forall i :: 0 < i < |orders| ==> orders[i] == orders[1..][i - 1];
      if rest.Some? then Some(rest.value + 1) else None
  }

  /** An order that is open for the same amount is handed out again as long as its payment can still be made. */
  function PlaceOrder(orders: seq<OpenOrder>, charge: Charge, verdict: Verdict): (placed: Placed)
    ensures placed.Fresh? <==> verdict.Over? || FindOpen(orders, charge).None? || !orders[FindOpen(orders, charge).value].usable
    ensures placed.Fresh? ==> placed.charge == charge
    ensures !placed.Fresh? ==>
      && placed.at < |orders| && orders[placed.at].pending && orders[placed.at].recent && orders[placed.at].usable
      && orders[placed.at].amountMinor == charge.amountMinor && orders[placed.at].currency == charge.currency
      && (placed.Settled? <==> verdict.PaidMeanwhile?)
  {
    var found := FindOpen(orders, charge);
    if found.None? || !orders[found.value].usable then Fresh(charge)
    else
      match verdict
      case StillPayable => Reused(found.value)
      case PaidMeanwhile => Settled(found.value)
      case Over => Fresh(charge)
  }

  datatype Quote = Quote(currency: string, amountMinor: int, discountMinor: int, settlement: Option<ResolvedPrice>)

  /** `used` is absent for a visitor who is not signed in. */
  function CheckPromo(shop: Shop, asked: Option<string>, market: string, used: Option<nat>): Result<Quote, Refusal> {
    if shop.plan.None? || !shop.plan.value.active then Err(NoPlan)
    else
      var plan := shop.plan.value;
      var shown := ResolvePlanPrice(plan, Wanted(asked, market));
      var charged := if shop.settle.Some? then ResolvePlanPrice(plan, shop.settle) else shown;
      var applied := ApplyPromo(shop.promo, used, plan.code, charged.priceMinor, shop.minimumMinor, shop.at);
      if applied.Err? then Err(applied.error)
      else
        var same := Upper(shown.currency) == Upper(charged.currency);
        var discount :=
          if same then applied.value.discountMinor
          else Min(Max(0, shown.priceMinor - 1), RoundPercent(shown.priceMinor, applied.value.percentOff));
        Ok(Quote(shown.currency, shown.priceMinor - discount, discount,
          if same then None else Some(ResolvedPrice(applied.value.amountMinor, charged.currency))))
  }

  /** The amount the quote says the bank will debit. */
  function Debited(quote: Quote): int {
    if quote.settlement.Some? then quote.settlement.value.priceMinor else quote.amountMinor
  }

  function DebitedIn(quote: Quote): string {
    if quote.settlement.Some? then quote.settlement.value.currency else quote.currency
  }

  /**
   * Whenever an order with a code is created, the quote for the same code and state exists, for the
   * same account or for a guest, and the amount it announces is the amount of the order.
   */
  lemma QuoteIsTheCharge(shop: Shop, asked: Option<string>, market: string, allowHidden: bool, used: nat, viewer: Option<nat>)
    requires viewer == None || viewer == Some(used)
    requires CreateOrder(shop, Wanted(asked, market), allowHidden, true, used).Ok?
    ensures
      var charge := CreateOrder(shop, Wanted(asked, market), allowHidden, true, used).value;
      var quote := CheckPromo(shop, asked, market, viewer);
      && quote.Ok?
      && Debited(quote.value) == charge.amountMinor && Upper(DebitedIn(quote.value)) == Upper(charge.currency)
      && (quote.value.settlement.None? ==> quote.value.discountMinor == charge.discountMinor)
      && charge.amountMinor >= Max(1, shop.minimumMinor)
  {
    var plan := shop.plan.value;
    var wanted := Wanted(asked, market);
    if shop.settle.Some? && Upper(ResolvePlanPrice(plan, wanted).currency) == Upper(ResolvePlanPrice(plan, shop.settle).currency) {
      CurrencyDeterminesPrice(plan, wanted, shop.settle);
    }
  }

  /**
   * What an order costs before its discount: with a gateway that settles in one currency the plan's own
   * price if it is in that currency, else the first row in it, and no order without either; otherwise what
   * the plan costs in the currency asked for.
   */
  lemma ChargedIs(shop: Shop, currency: Option<string>, allowHidden: bool, withPromo: bool, used: nat)
    requires shop.settle.Some? ==> shop.settle.value in ["KZT", "RUB", "USD"]
    ensures
      var order := CreateOrder(shop, currency, allowHidden, withPromo, used);
      && (order.Ok? ==>
            var plan, full := shop.plan.value, order.value.amountMinor + order.value.discountMinor;
            && (shop.settle.None? ==> ResolvedPrice(full, order.value.currency) == ResolvePlanPrice(plan, currency))
            && (shop.settle.Some? ==> Upper(order.value.currency) == shop.settle.value)
            && (shop.settle.Some? && Upper(plan.currency) == shop.settle.value ==> full == plan.priceMinor)
            && (shop.settle.Some? && Upper(plan.currency) != shop.settle.value ==>
                  exists i :: 0 <= i < |plan.prices| && Upper(plan.prices[i].currency) == shop.settle.value && full == plan.prices[i].priceMinor
                    && forall j :: 0 <= j < i ==> Upper(plan.prices[j].currency) != shop.settle.value))
      && (order == Err(NotPriced) ==>
            && shop.settle.Some? && Upper(shop.plan.value.currency) != shop.settle.value
            && forall i :: 0 <= i < |shop.plan.value.prices| ==> Upper(shop.plan.value.prices[i].currency) != shop.settle.value)
  {
    if shop.plan.Some? && shop.plan.value.priceMinor > 0 && shop.settle.Some? {
      SettlesIn(shop.plan.value, shop.settle.value);
    }
  }

  lemma SettlesIn(plan: PricedPlan, c: string)
    requires c in ["KZT", "RUB", "USD"] && plan.priceMinor > 0
    ensures
      var price := ResolvePlanPrice(plan, Some(c));
      && (Upper(plan.currency) == c ==> price == ResolvedPrice(plan.priceMinor, plan.currency))
      && (Upper(plan.currency) != c && Upper(price.currency) == c ==>
            exists i :: 0 <= i < |plan.prices| && Upper(plan.prices[i].currency) == c && price.priceMinor == plan.prices[i].priceMinor
              && forall j :: 0 <= j < i ==> Upper(plan.prices[j].currency) != c)
      && (Upper(price.currency) != c ==>
            Upper(plan.currency) != c && forall i :: 0 <= i < |plan.prices| ==> Upper(plan.prices[i].currency) != c)
  {
    SupportedIsUpper();
    HeldIsUnderstood(c);
    if FindPrice(plan.prices, c).Some? {
      var i := FoundAt(plan.prices, c);
      FoundFirst(plan.prices, c, i);
    } else {
      NoneListed(plan.prices, c);
    }
  }

  lemma HeldIsUnderstood(c: string)
    requires c in ["KZT", "RUB", "USD"]
    ensures NormalizeCurrency(Some(c)) == Some(c)
  {
    SupportedIsUpper();
    assert c == [] + c + [] && SameLetters(c, c);
    assert Spells(c, c);
    UnderstoodIff(c, c);
  }

  lemma {:induction false} NoneListed(prices: seq<PlanPrice>, wanted: string)
    requires FindPrice(prices, wanted).None?
    ensures forall i :: 0 <= i < |prices| ==> Upper(prices[i].currency) != wanted
  {
    if prices != [] {
      NoneListed(prices[1..], wanted);
      assert forall i :: 0 < i < |prices| ==> prices[i] == prices[1..][i - 1];
    }
  }

  /** A code takes off exactly what the undiscounted order would have charged more. */
  lemma ChargeAndDiscountAddUp(shop: Shop, currency: Option<string>, allowHidden: bool, used: nat)
    requires CreateOrder(shop, currency, allowHidden, true, used).Ok?
    ensures
      var with, without := CreateOrder(shop, currency, allowHidden, true, used).value, CreateOrder(shop, currency, allowHidden, false, used);
      without.Ok? && with.amountMinor + with.discountMinor == without.value.amountMinor && with.currency == without.value.currency
  {
    var plan := shop.plan.value;
    var price := PriceOf(shop, currency);
    var promo := ApplyPromo(shop.promo, Some(used), plan.code, price.priceMinor, shop.minimumMinor, shop.at);
    assert promo.Ok?;
  }

  /**
   * A code is quoted for a plan that is for sale exactly when it applies to what will be charged for it.
   * The card shows the price in the currency the visitor asked for, or that of the visitor's market, and
   * next to another currency's charge the rounded percentage of it, but never the whole price.
   */
  lemma QuoteShows(shop: Shop, asked: Option<string>, market: string, viewer: Option<nat>, shown: string)
    requires (asked.Some? && shown in ["KZT", "RUB", "USD"] && Spells(asked.value, shown))
          || (shown == market && forall c :: c in ["KZT", "RUB", "USD"] ==> asked.None? || !Spells(asked.value, c))
    ensures
      CheckPromo(shop, asked, market, viewer).Ok? <==>
        && shop.plan.Some? && shop.plan.value.active && shop.promo.Some? && Usable(shop.promo.value, viewer, shop.plan.value.code, shop.at)
        && PriceOf(shop, Some(shown)).priceMinor * shop.promo.value.percentOff >= 50
        && PriceOf(shop, Some(shown)).priceMinor > Max(1, shop.minimumMinor)
    ensures
      var quote := CheckPromo(shop, asked, market, viewer);
      quote.Ok? ==>
        && shop.plan.Some?
        && var price := ResolvePlanPrice(shop.plan.value, Some(shown));
           && quote.value.currency == price.currency && quote.value.amountMinor + quote.value.discountMinor == price.priceMinor
           && (quote.value.settlement.Some? && price.priceMinor > 0 ==>
                 && 100 * quote.value.discountMinor <= price.priceMinor * shop.promo.value.percentOff + 50
                 && (quote.value.amountMinor > 1 ==> price.priceMinor * shop.promo.value.percentOff - 50 < 100 * quote.value.discountMinor))
  {
    assert Wanted(asked, market) == Some(shown) by {
      if asked.Some? {
        var normal := NormalizeCurrency(asked);
        if normal.Some? { UnderstoodIff(asked.value, normal.value); }
        if shown in ["KZT", "RUB", "USD"] { UnderstoodIff(asked.value, shown); }
      }
    }
  }

  /** When the quote is shown in another currency than the one settled, its card never reads zero or less. */
  lemma ShownStaysPositive(shop: Shop, asked: Option<string>, market: string, viewer: Option<nat>)
    requires shop.plan.Some? && ResolvePlanPrice(shop.plan.value, Wanted(asked, market)).priceMinor > 0
    ensures
      var quote := CheckPromo(shop, asked, market, viewer);
      quote.Ok? ==> quote.value.amountMinor >= 1
  {
    var plan := shop.plan.value;
    var wanted := Wanted(asked, market);
    if shop.settle.Some? && Upper(ResolvePlanPrice(plan, wanted).currency) == Upper(ResolvePlanPrice(plan, shop.settle).currency) {
      CurrencyDeterminesPrice(plan, wanted, shop.settle);
    }
  }
}
