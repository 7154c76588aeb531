/** The gate an opportunity must pass before it is called arbitrage: worst-case payoff beats total
    cost plus per-order rounded fees. It joins contracts.py, fees/model.py and the event sums of
    markets/models.py. */
module Arbitrage {
  import opened Results
  import opened RealArith
  import opened Money
  import opened Contracts
  import opened Fees
  import opened FeeTheorems
  import opened Markets

  /** The orders that buy `count` contracts of every leg. */
  function BasketLegs(prices: seq<real>, count: real): seq<Leg> {
    seq(|prices|, i requires 0 <= i < |prices| => Leg(count, prices[i]))
  }

  /** What they pay for the contracts. */
  function Outlay(prices: seq<real>, count: real): real {
    Times(Sum(prices), count)
  }

  function NetEdge(prices: seq<real>, side: Outcome, exclusivity: Exclusivity, count: real, t: Terms)
    : Result<real, MoneyError>
  {
    var bounds :- BasketPayoffBounds(|prices|, side, exclusivity, count, t.notional);
    var fees :- BasketCost(BasketLegs(prices, count), t);
    Success(GuaranteedGrossEdge(Outlay(prices, count), bounds) - fees)
  }

  /** What the basket makes in state `st`, leg by leg: payoff less price less the leg's own fee. */
  function StateProfit(st: Settlement, prices: seq<real>, side: Outcome, count: real, t: Terms): real
    requires |st| == |prices| && AllPriced(BasketLegs(prices, count), t)
    decreases |st|
  {
    if st == [] then 0.0
    else
      assert BasketLegs(prices, count)[0] == Leg(count, prices[0]);
      assert BasketLegs(prices, count)[1..] == BasketLegs(prices[1..], count);
      PositionPayoff(side, st[0], count, t.notional).value - Times(prices[0], count)
      - FeeOf(Leg(count, prices[0]), t)
      + StateProfit(st[1..], prices[1..], side, count, t)
  }

  lemma {:induction false} ProfitDecomposes(st: Settlement, prices: seq<real>, side: Outcome, count: real, t: Terms)
    requires |st| == |prices| && AllPriced(BasketLegs(prices, count), t) && count >= 0.0
    ensures BasketCost(BasketLegs(prices, count), t).Success?
    ensures StateProfit(st, prices, side, count, t)
            == BasketPayoff(st, side, count, t.notional) - Outlay(prices, count)
               - BasketCost(BasketLegs(prices, count), t).value
    decreases |st|
  {
    hide Times, RawFee, PositionPayoff;
    BasketPricedIff(BasketLegs(prices, count), t);
    TimesLaws(0.0, 0.0, count);
    if st == [] {
    } else {
      assert BasketLegs(prices, count)[0] == Leg(count, prices[0]);
      assert BasketLegs(prices, count)[1..] == BasketLegs(prices[1..], count);
      BasketPricedIff(BasketLegs(prices[1..], count), t);
      ProfitDecomposes(st[1..], prices[1..], side, count, t);
      TimesLaws(prices[0], Sum(prices[1..]), count);
    }
  }

  /** When the gate gives an answer: there is a leg, and every leg has a fee. */
  lemma NetEdgeExists(prices: seq<real>, side: Outcome, exclusivity: Exclusivity, count: real, t: Terms)
    ensures NetEdge(prices, side, exclusivity, count, t).Success? <==>
              |prices| >= 1 && AllPriced(BasketLegs(prices, count), t)
    ensures NetEdge(prices, side, exclusivity, count, t).Success? ==> count >= 0.0 && t.notional > 0.0
  {
    hide RawFee, BasketPayoffBounds;
    BasketPricedIff(BasketLegs(prices, count), t);
    BoundsExist(|prices|, side, exclusivity, count, t.notional);
    if |prices| >= 1 && AllPriced(BasketLegs(prices, count), t) {
      assert BasketLegs(prices, count)[0] == Leg(count, prices[0]);
      PricedIff(BasketLegs(prices, count)[0], t);
    }
  }

  ghost predicate ProfitsEverywhere(prices: seq<real>, side: Outcome, exclusivity: Exclusivity,
                                    count: real, t: Terms)
    requires AllPriced(BasketLegs(prices, count), t)
  {
    forall st: Settlement :: |st| == |prices| && Permits(exclusivity, st) ==>
      StateProfit(st, prices, side, count, t) > 0.0
  }

  /** The certificate is exact. The closed-form net edge is what the basket makes in its worst
      permitted settlement state, every leg paying its own rounded fee: no permitted state makes
      less, one makes exactly that, and so the gate passes if and only if every permitted state
      makes money. */
  lemma CertificateIsExact(prices: seq<real>, side: Outcome, exclusivity: Exclusivity, count: real, t: Terms)
    requires NetEdge(prices, side, exclusivity, count, t).Success?
    ensures AllPriced(BasketLegs(prices, count), t)
    ensures var edge := NetEdge(prices, side, exclusivity, count, t).value;
            && (forall st: Settlement :: |st| == |prices| && Permits(exclusivity, st) ==>
                  StateProfit(st, prices, side, count, t) >= edge)
            && (exists st: Settlement :: |st| == |prices| && Permits(exclusivity, st)
                  && StateProfit(st, prices, side, count, t) == edge)
            && (edge > 0.0 <==> ProfitsEverywhere(prices, side, exclusivity, count, t))
  {
    NetEdgeExists(prices, side, exclusivity, count, t);
    BoundsAreExact(|prices|, side, exclusivity, count, t.notional);
    hide Outlay, RawFee, BasketPayoffBounds, BasketPayoff, BasketCost, StateProfit;
    var edge := NetEdge(prices, side, exclusivity, count, t).value;
    var bounds := BasketPayoffBounds(|prices|, side, exclusivity, count, t.notional).value;
    forall st: Settlement | |st| == |prices| && Permits(exclusivity, st)
      ensures StateProfit(st, prices, side, count, t) >= edge
    {
      ProfitDecomposes(st, prices, side, count, t);
    }
    var worst: Settlement :| |worst| == |prices| && Permits(exclusivity, worst)
      && BasketPayoff(worst, side, count, t.notional) == bounds.minimum;
    ProfitDecomposes(worst, prices, side, count, t);
  }

  /** Pooling the legs before rounding would raise the edge: the gate charges at least that. */
  lemma PooledRoundingOverstates(prices: seq<real>, side: Outcome, exclusivity: Exclusivity, count: real, t: Terms)
    requires NetEdge(prices, side, exclusivity, count, t).Success?
    ensures AllPriced(BasketLegs(prices, count), t)
    ensures var bounds := BasketPayoffBounds(|prices|, side, exclusivity, count, t.notional).value;
            NetEdge(prices, side, exclusivity, count, t).value
            <= GuaranteedGrossEdge(Outlay(prices, count), bounds)
               - RoundUp(RawTotal(BasketLegs(prices, count), t), t.schedule.precision.Granularity())
  {
    NetEdgeExists(prices, side, exclusivity, count, t);
    RoundingSandwich(BasketLegs(prices, count), t);
    hide Outlay, RawFee, BasketPayoffBounds, RoundUp;
  }

  function AllInTotal(prices: seq<real>, count: real, t: Terms): real
    requires count > 0.0 && AllPriced(BasketLegs(prices, count), t)
    decreases |prices|
  {
    if prices == [] then 0.0
    else
      assert BasketLegs(prices, count)[0] == Leg(count, prices[0]);
      assert BasketLegs(prices, count)[1..] == BasketLegs(prices[1..], count);
      Times(EffectivePrice(count, prices[0], t).value, count) + AllInTotal(prices[1..], count, t)
  }

  /** Effective prices carry the fees exactly: bought at them, a basket costs its outlay plus its
      rounded fees, and no contract costs less than its quote. */
  lemma {:induction false} EffectivePricesCarryFees(prices: seq<real>, count: real, t: Terms)
    requires count > 0.0 && AllPriced(BasketLegs(prices, count), t)
    ensures BasketCost(BasketLegs(prices, count), t).Success?
    ensures AllInTotal(prices, count, t)
            == Outlay(prices, count) + BasketCost(BasketLegs(prices, count), t).value
    ensures forall i :: 0 <= i < |prices| ==>
              EffectivePrice(count, prices[i], t).Success?
              && EffectivePrice(count, prices[i], t).value >= prices[i]
    decreases |prices|
  {
    hide Times, RawFee, Rounded;
    BasketPricedIff(BasketLegs(prices, count), t);
    TimesLaws(0.0, 0.0, count);
    if prices == [] {
    } else {
      var leg := Leg(count, prices[0]);
      assert BasketLegs(prices, count)[0] == leg;
      assert BasketLegs(prices, count)[1..] == BasketLegs(prices[1..], count);
      BasketPricedIff(BasketLegs(prices[1..], count), t);
      EffectivePricesCarryFees(prices[1..], count, t);
      FeePerUnit(leg, t);
      TimesLaws(prices[0], Sum(prices[1..]), count);
      assert forall i :: 1 <= i < |prices| ==> prices[i] == prices[1..][i - 1];
    }
  }

  lemma FeePerUnit(leg: Leg, t: Terms)
    requires Priced(leg, t) && leg.count > 0.0
    ensures EffectivePrice(leg.count, leg.price, t).Success?
    ensures Times(EffectivePrice(leg.count, leg.price, t).value, leg.count)
            == Times(leg.price, leg.count) + FeeOf(leg, t)
    ensures EffectivePrice(leg.count, leg.price, t).value >= leg.price
  {
    FeeIsRoundedRaw(leg, t);
    DivTimes(FeeOf(leg, t), leg.count);
    TimesLaws(leg.price, FeeOf(leg, t) / leg.count, leg.count);
    assert Times(FeeOf(leg, t) / leg.count, leg.count) == FeeOf(leg, t);
    hide Times, RawFee, Rounded;
  }

  // ---- overround ---------------------------------------------------------------------------

  function Bids(markets: seq<NormalizedMarket>): seq<real> {
    seq(|markets|, i requires 0 <= i < |markets| => markets[i].yesBid)
  }

  /** The NO ask of every market, derived from its YES bid. */
  function NoAsks(bids: seq<real>, notional: real): seq<real> {
    seq(|bids|, i requires 0 <= i < |bids| => notional - bids[i])
  }

  lemma {:induction false} BidsSum(markets: seq<NormalizedMarket>)
    ensures Sum(Bids(markets)) == SumBids(markets)
    decreases |markets|
  {
    if markets == [] {
    } else {
      BidsSum(markets[1..]);
      assert Bids(markets)[1..] == Bids(markets[1..]);
    }
  }

  lemma {:induction false} AsksSum(bids: seq<real>, notional: real)
    ensures Sum(NoAsks(bids, notional)) == LegsPay(|bids| as real, notional) - Sum(bids)
    decreases |bids|
  {
    hide LegsPay;
    LegsPayLaws(0, 0, notional);
    if bids == [] {
    } else {
      AsksSum(bids[1..], notional);
      assert NoAsks(bids, notional)[1..] == NoAsks(bids[1..], notional);
      LegsPayLaws(1, |bids| - 1, notional);
    }
  }

  /** The NO basket of an event's active markets, each leg bought at its derived ask. */
  function ActiveAsks(markets: seq<NormalizedMarket>, notional: real): seq<real> {
    NoAsks(Bids(ActiveOf(markets)), notional)
  }

  function ActiveNoAsks(e: NormalizedEvent, notional: real): seq<real> {
    ActiveAsks(e.markets, notional)
  }

  lemma NoBasketGrossEdge(bids: seq<real>, count: real, notional: real)
    requires |bids| >= 1 && count >= 0.0 && notional > 0.0
    ensures var bounds := BasketPayoffBounds(|bids|, No, MutuallyExclusive, count, notional);
            && bounds.Success?
            && GuaranteedGrossEdge(Outlay(NoAsks(bids, notional), count), bounds.value)
               == Times(Sum(bids) - notional, count)
  {
    BoundsExist(|bids|, No, MutuallyExclusive, count, notional);
    AsksSum(bids, notional);
    LegsPayCount(|bids|, count, notional);
    LegsPayLaws(|bids| - 1, 1, count * notional);
    hide BasketPayoffBounds, Sum, Times, LegsPay;
    TimesLaws(LegsPay(|bids| as real, notional), Sum(bids), count);
    TimesLaws(Sum(bids), notional, count);
  }

  lemma LegsPayCount(n: int, count: real, notional: real)
    ensures Times(LegsPay(n as real, notional), count) == LegsPay(n as real, count * notional)
    ensures Times(notional, count) == count * notional
  {
    var x := n as real;
    assert x * notional * count == x * (count * notional);
  }

  /** Overround is the edge. For a mutually exclusive event, buying every active NO leg at its
      derived ask has worst-case gross edge exactly count * (yes_bid_sum - notional), so the gate
      passes exactly when that beats the rounded fees. */
  lemma OverroundIsTheEdge(e: NormalizedEvent, count: real, t: Terms)
    requires e.mutuallyExclusive
    requires NetEdge(ActiveNoAsks(e, t.notional), No, e.Exclusivity(), count, t).Success?
    ensures var fees := BasketCost(BasketLegs(ActiveNoAsks(e, t.notional), count), t);
            && fees.Success?
            && NetEdge(ActiveNoAsks(e, t.notional), No, e.Exclusivity(), count, t).value
               == Times(e.YesBidSum() - t.notional, count) - fees.value
  {
    var bids := Bids(e.ActiveMarkets());
    NetEdgeExists(ActiveNoAsks(e, t.notional), No, e.Exclusivity(), count, t);
    NoBasketGrossEdge(bids, count, t.notional);
    BidsSum(e.ActiveMarkets());
    hide BasketPayoffBounds, Outlay, BasketCost, Times, Sum, SumBids;
  }

  /** Every active market's NO, at its derived ask, has a fee. */
  predicate ActivePriced(markets: seq<NormalizedMarket>, count: real, t: Terms) {
    forall i :: 0 <= i < |markets| && markets[i].status == Active ==>
      Priced(Leg(count, t.notional - markets[i].yesBid), t)
  }

  /** What buying `count` NO contracts of every active market of an event makes when the event
      settles as `st`, market by market: an active market pays if it did not resolve YES, and costs
      its own ask and its own fee; an inactive one is not bought. */
  function EventProfit(markets: seq<NormalizedMarket>, st: Settlement, count: real, t: Terms): real
    requires |st| == |markets| && count >= 0.0 && ActivePriced(markets, count, t)
    decreases |markets|
  {
    if markets == [] then 0.0
    else
      var ask := t.notional - markets[0].yesBid;
      (if markets[0].status == Active
       then PositionPayoff(No, st[0], count, t.notional).value - Times(ask, count) - FeeOf(Leg(count, ask), t)
       else 0.0)
      + EventProfit(markets[1..], st[1..], count, t)
  }

  lemma FirstLegApart(st: Settlement, prices: seq<real>, count: real, t: Terms)
    requires prices != [] && |st| == |prices| && AllPriced(BasketLegs(prices, count), t)
    ensures Priced(Leg(count, prices[0]), t) && AllPriced(BasketLegs(prices[1..], count), t)
    ensures StateProfit(st, prices, No, count, t)
            == PositionPayoff(No, st[0], count, t.notional).value - Times(prices[0], count)
               - FeeOf(Leg(count, prices[0]), t) + StateProfit(st[1..], prices[1..], No, count, t)
  {
    hide Times, Priced, FeeOf, PositionPayoff;
    assert BasketLegs(prices, count)[0] == Leg(count, prices[0]);
    assert BasketLegs(prices, count)[1..] == BasketLegs(prices[1..], count);
  }

  /** What the first market of an event adds to its active basket. */
  lemma FirstMarketApart(markets: seq<NormalizedMarket>, st: Settlement, notional: real)
    requires markets != [] && |st| == |markets|
    ensures var m, rest := markets[0], markets[1..];
            var asks, asks' := ActiveAsks(markets, notional), ActiveAsks(rest, notional);
            var kept, kept' := Kept(st, ActiveMask(markets)), Kept(st[1..], ActiveMask(rest));
            && |kept| == |asks| && |kept'| == |asks'|
            && (if m.status == Active
                then && asks != [] && asks[0] == notional - m.yesBid && asks[1..] == asks'
                     && kept[0] == st[0] && kept[1..] == kept'
                else asks == asks' && kept == kept')
  {
    ActiveLegsAreAsMany(markets, st);
    ActiveLegsAreAsMany(markets[1..], st[1..]);
    AsksUnfold(markets, notional);
    ActiveUnfolds(markets, st);
    hide Kept, ActiveMask, ActiveOf;
  }

  /** It is the profit of the basket of active legs in the state those legs settled in. */
  lemma {:induction false} EventProfitIsTheBaskets(markets: seq<NormalizedMarket>, st: Settlement,
                                                   count: real, t: Terms)
    requires |st| == |markets| && count >= 0.0
    requires AllPriced(BasketLegs(ActiveAsks(markets, t.notional), count), t)
    ensures ActivePriced(markets, count, t)
    ensures |Kept(st, ActiveMask(markets))| == |ActiveAsks(markets, t.notional)|
    ensures EventProfit(markets, st, count, t)
            == StateProfit(Kept(st, ActiveMask(markets)), ActiveAsks(markets, t.notional), No, count, t)
    decreases |markets|
  {
    hide Times, Priced, FeeOf, PositionPayoff;
    if markets == [] {
    } else {
      var rest, asks, kept := markets[1..], ActiveAsks(markets, t.notional), Kept(st, ActiveMask(markets));
      FirstMarketApart(markets, st, t.notional);
      if markets[0].status == Active {
        FirstLegApart(kept, asks, count, t);
      }
      hide ActiveAsks, Kept, ActiveMask, AllPriced, StateProfit, BasketLegs;
      EventProfitIsTheBaskets(rest, st[1..], count, t);
      assert forall i :: 1 <= i < |markets| ==> markets[i] == rest[i - 1];
    }
  }

  lemma AsksUnfold(markets: seq<NormalizedMarket>, notional: real)
    requires markets != []
    ensures ActiveAsks(markets, notional)
            == (if markets[0].status == Active then [notional - markets[0].yesBid] else [])
               + ActiveAsks(markets[1..], notional)
  {
    var first, rest := if markets[0].status == Active then [markets[0]] else [], ActiveOf(markets[1..]);
    AsksConcat(first, rest, notional);
    assert [] + ActiveAsks(markets[1..], notional) == ActiveAsks(markets[1..], notional);
  }

  lemma AsksConcat(xs: seq<NormalizedMarket>, ys: seq<NormalizedMarket>, notional: real)
    ensures NoAsks(Bids(xs + ys), notional) == NoAsks(Bids(xs), notional) + NoAsks(Bids(ys), notional)
  {
    assert Bids(xs + ys) == Bids(xs) + Bids(ys);
  }

  /** Sound for the event as a whole. Although only the active legs are bought, in every settlement
      of the whole event with at most one YES the purchase makes at least the net edge. */
  lemma OverroundIsSound(e: NormalizedEvent, count: real, t: Terms, st: Settlement)
    requires e.mutuallyExclusive
    requires NetEdge(ActiveNoAsks(e, t.notional), No, e.Exclusivity(), count, t).Success?
    requires |st| == |e.markets| && CountYes(st) <= 1
    ensures count >= 0.0 && ActivePriced(e.markets, count, t)
    ensures EventProfit(e.markets, st, count, t)
            >= NetEdge(ActiveNoAsks(e, t.notional), No, e.Exclusivity(), count, t).value
  {
    NetEdgeExists(ActiveNoAsks(e, t.notional), No, e.Exclusivity(), count, t);
    EventProfitIsTheBaskets(e.markets, st, count, t);
    PermitsWhenKept(MutuallyExclusive, st, ActiveMask(e.markets));
    CertificateIsExact(ActiveNoAsks(e, t.notional), No, e.Exclusivity(), count, t);
    hide NetEdge, StateProfit, EventProfit, RawFee;
  }

  /** Where the class permits a state in which no leg pays, no basket ever passes: neither side of
      an unconstrained event, nor the YES side of one that is mutually exclusive but not proved
      exhaustive. */
  lemma NoGuaranteeNoEdge(prices: seq<real>, side: Outcome, exclusivity: Exclusivity, count: real, t: Terms)
    requires exclusivity == Unconstrained || (exclusivity == MutuallyExclusive && side == Yes)
    requires NetEdge(prices, side, exclusivity, count, t).Success?
    ensures NetEdge(prices, side, exclusivity, count, t).value <= 0.0
  {
    NetEdgeExists(prices, side, exclusivity, count, t);
    BoundsExist(|prices|, side, exclusivity, count, t.notional);
    LegsPayLaws(0, 0, count * t.notional);
    BasketCostByLegs(BasketLegs(prices, count), t);
    forall i | 0 <= i < |prices| ensures prices[i] >= 0.0 {
      assert BasketLegs(prices, count)[i] == Leg(count, prices[i]);
      PricedIff(BasketLegs(prices, count)[i], t);
    }
    SumNonNegative(prices);
    TimesOrder(Sum(prices), 0.0, count);
    hide BasketPayoffBounds, Times, Sum, LegsPay, RawFee;
  }

  /** So the gate of an event that is not flagged never passes, on either side; nor does the YES side
      of one that is. */
  lemma UnflaggedNeverPasses(e: NormalizedEvent, prices: seq<real>, side: Outcome, count: real, t: Terms)
    requires !e.mutuallyExclusive || side == Yes
    requires NetEdge(prices, side, e.Exclusivity(), count, t).Success?
    ensures NetEdge(prices, side, e.Exclusivity(), count, t).value <= 0.0
  {
    hide NetEdge;
    NoGuaranteeNoEdge(prices, side, e.Exclusivity(), count, t);
  }

  lemma {:induction false} SumNonNegative(xs: seq<real>)
    requires forall i :: 0 <= i < |xs| ==> xs[i] >= 0.0
    ensures Sum(xs) >= 0.0
    decreases |xs|
  {
    if xs == [] {
    } else {
      SumNonNegative(xs[1..]);
    }
  }

  /** A test that needs only n, the bid sum and the notional: when the overround covers the fees of
      n equal bids with that sum plus one unit of rounding per leg, the basket makes money in
      every settlement of the whole event. */
  lemma OverroundTest(e: NormalizedEvent, count: real, t: Terms, st: Settlement)
    requires e.mutuallyExclusive && t.schedule.feeType != Flat
    requires NetEdge(ActiveNoAsks(e, t.notional), No, e.Exclusivity(), count, t).Success?
    requires t.notional > 0.0 && |e.ActiveMarkets()| >= 1
    requires |st| == |e.markets| && CountYes(st) <= 1
    ensures count >= 0.0 && ActivePriced(e.markets, count, t)
    ensures var n, g := |e.ActiveMarkets()|, t.schedule.precision.Granularity();
            Times(e.YesBidSum() - t.notional, count)
            >= EvenBasketFee(Rate(t.schedule, t.role), count, Bids(e.ActiveMarkets()), t.notional)
               + Times(n as real, g)
            ==> EventProfit(e.markets, st, count, t) > 0.0
  {
    var bids, g := Bids(e.ActiveMarkets()), t.schedule.precision.Granularity();
    var legs := BasketLegs(ActiveNoAsks(e, t.notional), count);
    assert legs == NoLegs(bids, count, t.notional);
    NetEdgeExists(ActiveNoAsks(e, t.notional), No, e.Exclusivity(), count, t);
    OverroundIsSound(e, count, t, st);
    OverroundIsTheEdge(e, count, t);
    NoBasketFeeBound(bids, count, t);
    BasketCostByLegs(legs, t);
    ChargedAtMost(legs, t);
    hide NetEdge, EventProfit, BasketCost, RawTotal, EvenBasketFee, Times, RawFee;
    TimesOrder(ChargedLegs(legs, t) as real, |bids| as real, g);
    TimesOrder(0.0, |bids| as real, g);
    TimesLaws(0.0, 0.0, g);
  }
}
