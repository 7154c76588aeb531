/** fees/model.py: quadratic fees, rounded up per order. */
module Fees {
  import opened Results
  import opened RealArith
  import opened Money

  datatype FeeType = Quadratic | QuadraticWithMakerFees | QuadraticWithComboMakerFees | Flat

  datatype Role = Taker | Maker

  datatype Precision = NonDirect | Direct {
    function Granularity(): (g: real)
      ensures g > 0.0
    {
      if NonDirect? then 0.01 else 0.0001
    }
  }

  datatype FeeTerms = FeeTerms(
    feeType: FeeType,
    takerMultiplier: real,
    makerMultiplier: Option<real>,
    precision: Precision,
    flatFeePerContract: Option<real>)
  {
    /** __post_init__ */
    predicate Accepted() {
      && takerMultiplier >= 0.0
      && (makerMultiplier.Some? ==> makerMultiplier.value >= 0.0)
      && (flatFeePerContract.Some? ==> flatFeePerContract.value >= 0.0)
    }
  }

  /** A schedule whose constructor did not raise. */
  type FeeSchedule = t: FeeTerms | t.Accepted()
    witness FeeTerms(Quadratic, 1.0, None, NonDirect, None)

  function MakeSchedule(terms: FeeTerms): Result<FeeSchedule, MoneyError> {
    if terms.Accepted() then Success(terms) else Failure(NegativeMultiplier)
  }

  /** The fee_type names the API uses; None is a name the model does not know. */
  function FeeTypeNamed(name: string): Option<FeeType> {
    if name == "quadratic" then Some(Quadratic)
    else if name == "quadratic_with_maker_fees" then Some(QuadraticWithMakerFees)
    else if name == "quadratic_with_combo_maker_fees" then Some(QuadraticWithComboMakerFees)
    else if name == "flat" then Some(Flat)
    else None
  }

  function MakerMultiplierOf(feeType: FeeType): Option<real> {
    match feeType
    case Quadratic => Some(0.0)
    case QuadraticWithMakerFees => Some(1.0)
    case QuadraticWithComboMakerFees => Some(2.0)
    case Flat => None
  }

  function FromApi(feeType: string, feeMultiplier: real, precision: Precision)
    : Result<FeeSchedule, MoneyError>
  {
    match FeeTypeNamed(feeType)
    case None => Failure(UnmodelledFee)
    case Some(known) =>
      MakeSchedule(FeeTerms(known, feeMultiplier, MakerMultiplierOf(known), precision, None))
  }

  const TAKER_BASE_RATE: real := 0.07
  const MAKER_BASE_RATE: real := 0.0175

  function EffectiveMakerMultiplier(s: FeeSchedule): real {
    if s.makerMultiplier.Some? then s.makerMultiplier.value
    else
      match MakerMultiplierOf(s.feeType)
      case Some(m) => m
      case None => 0.0
  }

  function Rate(s: FeeSchedule, role: Role): (r: real)
    ensures r >= 0.0
  {
    if role == Taker then TAKER_BASE_RATE * s.takerMultiplier
    else MAKER_BASE_RATE * EffectiveMakerMultiplier(s)
  }

  /** What an order is priced under: its schedule, its side of the match, its market's notional. */
  datatype Terms = Terms(schedule: FeeSchedule, role: Role, notional: real)

  /** price * (notional - price) / notional: the quadratic term of the fee. */
  function PriceWeight(price: real, notional: real): real
    requires notional > 0.0
  {
    Over(Times(price, notional - price), notional)
  }

  /** Model fee per contract, or why there is none. */
  function FeePerContract(price: real, t: Terms): Result<real, MoneyError>
    requires t.notional > 0.0
  {
    if t.schedule.feeType == Flat then
      match t.schedule.flatFeePerContract
      case None => Failure(UnmodelledFee)
      case Some(flat) => Success(flat)
    else Success(Times(Rate(t.schedule, t.role), PriceWeight(price, t.notional)))
  }

  /** raw_fee: the model fee of an order before rounding. */
  function RawFee(count: real, price: real, t: Terms): Result<real, MoneyError> {
    if t.notional <= 0.0 then Failure(NonPositiveNotional) else
    var _ :- ParseCount(count);
    var _ :- ParsePrice(price, t.notional);
    var each :- FeePerContract(price, t);
    Success(Times(each, count))
  }

  datatype FeeBreakdown = FeeBreakdown(fee: real, raw: real, count: real, price: real, terms: Terms)

  /** calculate_fee: rounded up per order; a fee of nothing stays nothing. */
  function CalculateFee(count: real, price: real, t: Terms): Result<FeeBreakdown, MoneyError> {
    var raw :- RawFee(count, price, t);
    Success(FeeBreakdown(Rounded(raw, t.schedule.precision), raw, count, price, t))
  }

  function Rounded(raw: real, precision: Precision): real {
    if raw == 0.0 then 0.0 else RoundUp(raw, precision.Granularity())
  }

  datatype Leg = Leg(count: real, price: real)

  /** calculate_basket_cost: every leg rounds on its own, and the first bad leg raises. */
  function BasketCost(legs: seq<Leg>, t: Terms): Result<real, MoneyError>
    decreases |legs|
  {
    if legs == [] then Success(0.0) else
    var first :- CalculateFee(legs[0].count, legs[0].price, t);
    var rest :- BasketCost(legs[1..], t);
    Success(first.fee + rest)
  }

  function RoundTripCost(count: real, entry: real, exit: real, entryTerms: Terms, exitTerms: Terms)
    : Result<real, MoneyError>
  {
    var i :- CalculateFee(count, entry, entryTerms);
    var o :- CalculateFee(count, exit, exitTerms);
    Success(i.fee + o.fee)
  }

  function EffectivePrice(count: real, price: real, t: Terms): Result<real, MoneyError> {
    var _ :- ParseCount(count);
    if count <= 0.0 then Failure(NothingToAmortise) else
    var breakdown :- CalculateFee(count, price, t);
    Success(price + breakdown.fee / count)
  }

  // ---- one order ---------------------------------------------------------------------------

  predicate Priced(leg: Leg, t: Terms) {
    RawFee(leg.count, leg.price, t).Success?
  }

  function RawOf(leg: Leg, t: Terms): real
    requires Priced(leg, t)
  {
    RawFee(leg.count, leg.price, t).value
  }

  function FeeOf(leg: Leg, t: Terms): real
    requires Priced(leg, t)
  {
    CalculateFee(leg.count, leg.price, t).value.fee
  }

  /** Exactly which orders are refused a fee. */
  lemma PricedIff(leg: Leg, t: Terms)
    ensures Priced(leg, t) <==>
              t.notional > 0.0 && leg.count >= 0.0 && 0.0 <= leg.price <= t.notional
              && (t.schedule.feeType == Flat ==> t.schedule.flatFeePerContract.Some?)
  {}

  /** The multiplier a schedule applies to a maker's base rate: the one it was given, or the one its
      fee type implies. */
  ghost predicate MakerMultiplier(s: FeeSchedule, m: real) {
    && (s.makerMultiplier.Some? ==> m == s.makerMultiplier.value)
    && (s.makerMultiplier.None? && s.feeType == Quadratic ==> m == 0.0)
    && (s.makerMultiplier.None? && s.feeType == QuadraticWithMakerFees ==> m == 1.0)
    && (s.makerMultiplier.None? && s.feeType == QuadraticWithComboMakerFees ==> m == 2.0)
  }

  /** C * P * (1 - P), for any notional. */
  ghost function OrderSize(leg: Leg, notional: real): real
    requires notional > 0.0
  {
    leg.count * leg.price * (notional - leg.price) / notional
  }

  /** The model fee as the official schedule prints it, wherever an order has one. */
  lemma RawFeeFormula(leg: Leg, t: Terms, m: real)
    requires Priced(leg, t) && MakerMultiplier(t.schedule, m)
    ensures RawOf(leg, t) ==
            if t.schedule.feeType == Flat then t.schedule.flatFeePerContract.value * leg.count
            else if t.role == Taker then 0.07 * t.schedule.takerMultiplier * OrderSize(leg, t.notional)
            else 0.0175 * m * OrderSize(leg, t.notional)
  {
    if t.schedule.feeType == Flat {
      ByName(t.schedule.flatFeePerContract.value, leg.count);
    } else {
      QuadraticFee(leg, t, if t.role == Taker then 0.07 * t.schedule.takerMultiplier else 0.0175 * m);
    }
    hide Times, PriceWeight, OrderSize;
  }

  lemma QuadraticFee(leg: Leg, t: Terms, rate: real)
    requires Priced(leg, t) && t.schedule.feeType != Flat && Rate(t.schedule, t.role) == rate
    ensures RawOf(leg, t) == rate * OrderSize(leg, t.notional)
  {
    RateOutside(rate, leg.count, leg.price, t.notional);
    hide Times, PriceWeight, Rate;
  }

  lemma ByName(x: real, y: real)
    ensures Times(x, y) == x * y
  {}

  lemma RateOutside(rate: real, count: real, price: real, notional: real)
    requires notional > 0.0
    ensures Times(Times(rate, PriceWeight(price, notional)), count)
            == rate * OrderSize(Leg(count, price), notional)
  {
    var x := price * (notional - price);
    var w := x / notional;
    DivTimes(x, notional);
    assert count * w * notional == count * (w * notional);
    assert count * x == count * price * (notional - price);
    DivUnique(count * price * (notional - price), notional, count * w);
    assert rate * w * count == rate * (count * w);
  }

  /** A line of the official table: a hundred contracts at fifty cents cost a taker $1.75, and a maker
      of a plain quadratic series nothing. */
  lemma HundredAtFifty(s: FeeSchedule)
    requires s == FeeTerms(Quadratic, 1.0, None, NonDirect, None)
    ensures CalculateFee(100.0, 0.5, Terms(s, Taker, 1.0)).Success?
            && CalculateFee(100.0, 0.5, Terms(s, Taker, 1.0)).value.fee == 1.75
    ensures CalculateFee(100.0, 0.5, Terms(s, Maker, 1.0)).Success?
            && CalculateFee(100.0, 0.5, Terms(s, Maker, 1.0)).value.fee == 0.0
  {
    var leg, taker, maker := Leg(100.0, 0.5), Terms(s, Taker, 1.0), Terms(s, Maker, 1.0);
    RawFeeFormula(leg, taker, 0.0);
    RawFeeFormula(leg, maker, 0.0);
    FeeIsRoundedRaw(leg, taker);
    FeeIsRoundedRaw(leg, maker);
    RoundUpUnique(1.75, 0.01, 175);
  }

  /** Why an order is refused: the first of these that holds. */
  lemma RefusedOrders(leg: Leg, t: Terms)
    ensures var r := RawFee(leg.count, leg.price, t);
            && (t.notional <= 0.0 ==> r == Failure(NonPositiveNotional))
            && (t.notional > 0.0 && leg.count < 0.0 ==> r == Failure(NegativeCount))
            && (t.notional > 0.0 && leg.count >= 0.0 && !(0.0 <= leg.price <= t.notional) ==>
                  r == Failure(PriceOutsideRange))
            && (r.Failure? && r.error == UnmodelledFee ==>
                  t.schedule.feeType == Flat && t.schedule.flatFeePerContract.None?)
  {}

  /** What a fee comes with: the order it is for and its fee before rounding. */
  lemma BreakdownIsOfTheOrder(leg: Leg, t: Terms)
    requires Priced(leg, t)
    ensures var b := CalculateFee(leg.count, leg.price, t).value;
            b.count == leg.count && b.price == leg.price && b.terms == t && b.raw == RawOf(leg, t)
  {}

  /** When an order has an effective price: it buys something and has a fee; why it has none. */
  lemma EffectivePriceIff(leg: Leg, t: Terms)
    ensures var r := EffectivePrice(leg.count, leg.price, t);
            && (r.Success? <==> leg.count > 0.0 && Priced(leg, t))
            && (leg.count < 0.0 ==> r == Failure(NegativeCount))
            && (leg.count == 0.0 ==> r == Failure(NothingToAmortise))
  {}

  /** A schedule is accepted as it is, or not at all. */
  lemma AcceptedSchedules(terms: FeeTerms)
    ensures MakeSchedule(terms) == Success(terms) || MakeSchedule(terms) == Failure(NegativeMultiplier)
    ensures MakeSchedule(terms).Success? <==>
              terms.takerMultiplier >= 0.0
              && (forall m: real ::
                    terms.makerMultiplier == Some(m) || terms.flatFeePerContract == Some(m) ==> m >= 0.0)
  {}

  /** What the API's two fields make of a schedule: the multiplier is the taker's, and never a rate. */
  lemma ApiSchedule(name: string, multiplier: real, precision: Precision)
    ensures var r := FromApi(name, multiplier, precision);
            && (r.Success? ==>
                  && r.value.takerMultiplier == multiplier && r.value.precision == precision
                  && r.value.flatFeePerContract.None?
                  && (name == "quadratic" ==> r.value.feeType == Quadratic && r.value.makerMultiplier == Some(0.0))
                  && (name == "quadratic_with_maker_fees" ==>
                        r.value.feeType == QuadraticWithMakerFees && r.value.makerMultiplier == Some(1.0))
                  && (name == "quadratic_with_combo_maker_fees" ==>
                        r.value.feeType == QuadraticWithComboMakerFees && r.value.makerMultiplier == Some(2.0))
                  && (name == "flat" ==> r.value.feeType == Flat && r.value.makerMultiplier.None?))
            && (r.Failure? ==> r.error == UnmodelledFee || (r.error == NegativeMultiplier && multiplier < 0.0))
  {}

  lemma WeightNonNegative(price: real, notional: real)
    requires notional > 0.0 && 0.0 <= price <= notional
    ensures PriceWeight(price, notional) >= 0.0
    ensures 0.0 < price < notional ==> PriceWeight(price, notional) > 0.0
  {
    TimesOrder(price, 0.0, notional - price);
    OverLaws(0.0, Times(price, notional - price), notional);
    OverLaws(Times(price, notional - price), 0.0, notional);
    hide Times, Over;
  }

  lemma RawNonNegative(leg: Leg, t: Terms)
    requires Priced(leg, t)
    ensures RawOf(leg, t) >= 0.0
  {
    if t.schedule.feeType != Flat {
      WeightNonNegative(leg.price, t.notional);
      TimesOrder(Rate(t.schedule, t.role), 0.0, PriceWeight(leg.price, t.notional));
    }
    TimesOrder(FeePerContract(leg.price, t).value, 0.0, leg.count);
    hide Times, Over, PriceWeight, Rate;
  }

  /** The charged fee is the model fee rounded up to the member's precision: special-casing a zero
      fee changes nothing, and rounding costs less than one unit. */
  lemma FeeIsRoundedRaw(leg: Leg, t: Terms)
    requires Priced(leg, t)
    ensures var g := t.schedule.precision.Granularity();
            && FeeOf(leg, t) == RoundUp(RawOf(leg, t), g)
            && 0.0 <= RawOf(leg, t) <= FeeOf(leg, t) < RawOf(leg, t) + g
            && (RawOf(leg, t) == 0.0 <==> FeeOf(leg, t) == 0.0)
  {
    var g := t.schedule.precision.Granularity();
    RoundUpZero(g);
    RawNonNegative(leg, t);
    RoundUpBounds(RawOf(leg, t), g);
  }

  // ---- baskets -----------------------------------------------------------------------------

  predicate AllPriced(legs: seq<Leg>, t: Terms) {
    forall i :: 0 <= i < |legs| ==> Priced(legs[i], t)
  }

  function RawTotal(legs: seq<Leg>, t: Terms): real
    requires AllPriced(legs, t)
    decreases |legs|
  {
    if legs == [] then 0.0 else RawOf(legs[0], t) + RawTotal(legs[1..], t)
  }

  /** Legs whose model fee is not zero. */
  function ChargedLegs(legs: seq<Leg>, t: Terms): nat
    requires AllPriced(legs, t)
    decreases |legs|
  {
    if legs == [] then 0 else (if RawOf(legs[0], t) != 0.0 then 1 else 0) + ChargedLegs(legs[1..], t)
  }

  lemma {:induction false} BasketPricedIff(legs: seq<Leg>, t: Terms)
    ensures BasketCost(legs, t).Success? <==> AllPriced(legs, t)
    decreases |legs|
  {
    if legs == [] {
    } else {
      BasketPricedIff(legs[1..], t);
      assert AllPriced(legs, t) ==> Priced(legs[0], t) && AllPriced(legs[1..], t);
      if Priced(legs[0], t) && AllPriced(legs[1..], t) {
        assert forall i :: 1 <= i < |legs| ==> legs[i] == legs[1..][i - 1];
      }
    }
  }

  /** Units of precision a basket is charged, leg by leg. */
  function BasketUnits(legs: seq<Leg>, t: Terms): int
    requires AllPriced(legs, t)
    decreases |legs|
  {
    if legs == [] then 0
    else UnitsUp(RawOf(legs[0], t), t.schedule.precision.Granularity()) + BasketUnits(legs[1..], t)
  }

  lemma {:induction false} BasketCostByLegs(legs: seq<Leg>, t: Terms)
    requires AllPriced(legs, t)
    ensures var g := t.schedule.precision.Granularity();
            && BasketCost(legs, t).Success?
            && BasketCost(legs, t).value == Times(BasketUnits(legs, t) as real, g)
            && RawTotal(legs, t) >= 0.0
            && RawTotal(legs, t) <= BasketCost(legs, t).value
            && (if ChargedLegs(legs, t) == 0
                then BasketCost(legs, t).value == RawTotal(legs, t) == 0.0
                else RawTotal(legs, t) > 0.0
                     && BasketCost(legs, t).value
                        < RawTotal(legs, t) + Times(ChargedLegs(legs, t) as real, g))
    decreases |legs|
  {
    var g := t.schedule.precision.Granularity();
    TimesLaws(0.0, 0.0, g);
    if legs == [] {
    } else {
      BasketCostByLegs(legs[1..], t);
      FeeIsRoundedRaw(legs[0], t);
      TimesLaws(UnitsUp(RawOf(legs[0], t), g) as real, BasketUnits(legs[1..], t) as real, g);
      TimesLaws(1.0, ChargedLegs(legs[1..], t) as real, g);
      hide Times, RawOf, FeeOf, RoundUp;
    }
  }

  /** The rounding sandwich. Charging a basket leg by leg costs at least the pooled model fee
      rounded up once, and less than one unit per charged leg above the model fee. */
  lemma RoundingSandwich(legs: seq<Leg>, t: Terms)
    requires AllPriced(legs, t)
    ensures var g, k := t.schedule.precision.Granularity(), ChargedLegs(legs, t);
            && BasketCost(legs, t).Success?
            && RoundUp(RawTotal(legs, t), g) <= BasketCost(legs, t).value
            && (k > 0 ==> BasketCost(legs, t).value < RawTotal(legs, t) + k as real * g)
            && (k == 0 ==> BasketCost(legs, t).value == RawTotal(legs, t) == 0.0)
  {
    hide RawFee, BasketCost, RawTotal, ChargedLegs, BasketUnits, UnitsUp;
    var g := t.schedule.precision.Granularity();
    BasketCostByLegs(legs, t);
    RoundUpUnique(RawTotal(legs, t), g, BasketUnits(legs, t));
    MulMonotone(UnitsUp(RawTotal(legs, t), g) as real, BasketUnits(legs, t) as real, g);
  }

  lemma {:induction false} BasketCostConcat(xs: seq<Leg>, ys: seq<Leg>, t: Terms)
    requires AllPriced(xs, t) && AllPriced(ys, t)
    ensures AllPriced(xs + ys, t)
    ensures BasketCost(xs, t).Success? && BasketCost(ys, t).Success? && BasketCost(xs + ys, t).Success?
    ensures BasketCost(xs + ys, t).value == BasketCost(xs, t).value + BasketCost(ys, t).value
    decreases |xs|
  {
    BasketPricedIff(xs, t);
    BasketPricedIff(ys, t);
    BasketPricedIff(xs + ys, t);
    if xs == [] {
      assert xs + ys == ys;
    } else {
      assert (xs + ys)[0] == xs[0] && (xs + ys)[1..] == xs[1..] + ys;
      BasketCostConcat(xs[1..], ys, t);
    }
  }

  lemma BasketOfTwo(a: Leg, b: Leg, t: Terms)
    ensures BasketCost([a, b], t) ==
            if !Priced(a, t) then Failure(RawFee(a.count, a.price, t).error)
            else if !Priced(b, t) then Failure(RawFee(b.count, b.price, t).error)
            else Success(FeeOf(a, t) + FeeOf(b, t))
  {
    hide RawFee, Rounded;
    var legs, rest, none := [a, b], [b], [];
    assert legs[1..] == rest && rest[1..] == none;
    assert BasketCost(none, t) == Success(0.0);
    assert BasketCost(rest, t)
        == if Priced(b, t) then Success(FeeOf(b, t)) else Failure(RawFee(b.count, b.price, t).error);
  }

  /** Opening and closing a position in one role costs what a basket of the two orders does; in any
      roles it costs at least both model fees and less than two units more. */
  lemma RoundTripIsTwoOrders(count: real, entry: real, exit: real, t: Terms, exitRole: Role)
    ensures var u := t.(role := exitRole);
            && (RoundTripCost(count, entry, exit, t, u).Success? <==>
                  Priced(Leg(count, entry), t) && Priced(Leg(count, exit), u))
            && (u == t ==> RoundTripCost(count, entry, exit, t, u)
                           == BasketCost([Leg(count, entry), Leg(count, exit)], t))
            && (RoundTripCost(count, entry, exit, t, u).Success? ==>
                  var raw := RawOf(Leg(count, entry), t) + RawOf(Leg(count, exit), u);
                  raw <= RoundTripCost(count, entry, exit, t, u).value
                       < raw + 2.0 * t.schedule.precision.Granularity())
  {
    hide RawFee, RoundUp;
    var a, b, u := Leg(count, entry), Leg(count, exit), t.(role := exitRole);
    BasketOfTwo(a, b, t);
    if Priced(a, t) { FeeIsRoundedRaw(a, t); }
    if Priced(b, u) { FeeIsRoundedRaw(b, u); }
  }

  lemma TakeOut(ys: seq<Leg>, x: Leg) returns (before: seq<Leg>, after: seq<Leg>)
    requires x in multiset(ys)
    ensures ys == before + ([x] + after)
    ensures multiset(before + after) == multiset(ys) - multiset{x}
  {
    var i :| 0 <= i < |ys| && ys[i] == x;
    before, after := ys[..i], ys[i + 1..];
    assert ys == before + ([x] + after);
    assert multiset(ys) == multiset(before) + (multiset{x} + multiset(after));
  }

  lemma CostOfOneIn(before: seq<Leg>, x: Leg, after: seq<Leg>, t: Terms)
    requires AllPriced(before + ([x] + after), t)
    ensures AllPriced(before + after, t) && Priced(x, t)
    ensures BasketCost(before + ([x] + after), t).Success? && BasketCost(before + after, t).Success?
    ensures BasketCost(before + ([x] + after), t).value == FeeOf(x, t) + BasketCost(before + after, t).value
  {
    var all := before + ([x] + after);
    assert forall i :: 0 <= i < |before| ==> all[i] == before[i];
    assert all[|before|] == x;
    assert forall i :: 0 <= i < |after| ==> all[|before| + 1 + i] == after[i];
    assert AllPriced([x] + after, t);
    BasketCostConcat(before, [x] + after, t);
    BasketCostConcat(before, after, t);
    assert ([x] + after)[1..] == after;
  }

  /** The order legs are listed in does not change what the basket costs, or whether it has a
      cost at all. */
  lemma {:induction false} BasketCostPermutes(xs: seq<Leg>, ys: seq<Leg>, t: Terms)
    requires multiset(xs) == multiset(ys)
    ensures BasketCost(xs, t).Success? <==> BasketCost(ys, t).Success?
    ensures BasketCost(xs, t).Success? ==> BasketCost(xs, t).value == BasketCost(ys, t).value
    decreases |xs|
  {
    hide CalculateFee;
    BasketPricedIff(xs, t);
    BasketPricedIff(ys, t);
    if AllPriced(ys, t) { SamePriced(ys, xs, t); }
    if xs == [] {
      assert |multiset(ys)| == 0;
    } else if AllPriced(xs, t) {
      SamePriced(xs, ys, t);
      assert xs == [xs[0]] + xs[1..];
      assert xs[0] in multiset(xs);
      var before, after := TakeOut(ys, xs[0]);
      assert multiset(xs) == multiset{xs[0]} + multiset(xs[1..]);
      BasketCostPermutes(xs[1..], before + after, t);
      CostOfOneIn(before, xs[0], after, t);
      CostOfOneIn([], xs[0], xs[1..], t);
      assert [] + ([xs[0]] + xs[1..]) == xs && [] + xs[1..] == xs[1..];
    }
  }

  lemma SamePriced(xs: seq<Leg>, ys: seq<Leg>, t: Terms)
    requires multiset(xs) == multiset(ys) && AllPriced(xs, t)
    ensures AllPriced(ys, t)
  {
    forall i | 0 <= i < |ys| ensures Priced(ys[i], t) {
      assert ys[i] in multiset(xs);
    }
  }
}
