/** What the fee model promises its callers about the fee of an order, a split order and a basket
    of NO legs. */
module FeeTheorems {
  import opened RealArith
  import opened Money
  import opened Fees

  // ---- splitting ---------------------------------------------------------------------------

  function Sum(xs: seq<real>): real
    decreases |xs|
  {
    if xs == [] then 0.0 else xs[0] + Sum(xs[1..])
  }

  /** One order per count, all at one price. */
  function Split(counts: seq<real>, price: real): seq<Leg> {
    seq(|counts|, i requires 0 <= i < |counts| => Leg(counts[i], price))
  }

  lemma {:induction false} SplitRaw(counts: seq<real>, price: real, t: Terms)
    requires AllPriced(Split(counts, price), t) && Priced(Leg(0.0, price), t)
    ensures Sum(counts) >= 0.0 && Priced(Leg(Sum(counts), price), t)
    ensures RawTotal(Split(counts, price), t) == RawOf(Leg(Sum(counts), price), t)
    decreases |counts|
  {
    hide Times, FeePerContract;
    var legs := Split(counts, price);
    PricedIff(Leg(0.0, price), t);
    var each := FeePerContract(price, t).value;
    TimesLaws(0.0, 0.0, each);
    if counts == [] {
    } else {
      assert legs[1..] == Split(counts[1..], price);
      assert legs[0] == Leg(counts[0], price);
      SplitRaw(counts[1..], price, t);
      PricedIff(legs[0], t);
      PricedIff(Leg(Sum(counts), price), t);
      TimesLaws(counts[0], Sum(counts[1..]), each);
      TimesLaws(Sum(counts[1..]), 0.0, each);
      TimesLaws(Sum(counts), 0.0, each);
    }
  }

  lemma {:induction false} ChargedAtMost(legs: seq<Leg>, t: Terms)
    requires AllPriced(legs, t)
    ensures ChargedLegs(legs, t) <= |legs|
    decreases |legs|
  {
    if legs == [] {
    } else {
      ChargedAtMost(legs[1..], t);
    }
  }

  /** Splitting an order never helps, and never hurts by more than one unit of precision per extra
      order: in either precision, for either role, and for a flat fee as well. */
  lemma SplittingNeverHelps(counts: seq<real>, price: real, t: Terms)
    requires |counts| >= 1 && AllPriced(Split(counts, price), t)
    ensures Priced(Leg(Sum(counts), price), t)
    ensures BasketCost(Split(counts, price), t).Success?
    ensures var whole, split := FeeOf(Leg(Sum(counts), price), t), BasketCost(Split(counts, price), t).value;
            whole <= split <= whole + Times((|counts| - 1) as real, t.schedule.precision.Granularity())
  {
    hide Times, RoundUp, FeePerContract, RawFee;
    var legs, g := Split(counts, price), t.schedule.precision.Granularity();
    assert legs[0] == Leg(counts[0], price);
    FirstIsPriced(counts, price, t);
    SplitRaw(counts, price, t);
    RoundingSandwich(legs, t);
    BasketCostByLegs(legs, t);
    ChargedAtMost(legs, t);
    FeeIsRoundedRaw(Leg(Sum(counts), price), t);
    SplitUnits(RawTotal(legs, t), g, BasketUnits(legs, t), ChargedLegs(legs, t), |counts|);
  }

  lemma FirstIsPriced(counts: seq<real>, price: real, t: Terms)
    requires |counts| >= 1 && AllPriced(Split(counts, price), t)
    ensures Priced(Leg(0.0, price), t)
  {
    assert Split(counts, price)[0] == Leg(counts[0], price);
    PricedIff(Leg(counts[0], price), t);
    PricedIff(Leg(0.0, price), t);
  }

  lemma SplitUnits(raw: real, g: real, units: int, charged: nat, n: nat)
    requires g > 0.0 && charged <= n && n >= 1
    requires if charged == 0 then Times(units as real, g) == raw == 0.0
             else Times(units as real, g) < raw + Times(charged as real, g)
    ensures Times(units as real, g) <= RoundUp(raw, g) + Times((n - 1) as real, g)
  {
    var whole := UnitsUp(raw, g);
    RoundUpBounds(raw, g);
    assert RoundUp(raw, g) == Times(whole as real, g);
    hide Times, RoundUp, UnitsUp;
    TimesOrder((n - 1) as real, 0.0, g);
    if charged > 0 {
      TimesLaws(whole as real, charged as real, g);
      TimesOrder(units as real, whole as real + charged as real, g);
      assert units <= whole + (n - 1);
      TimesLaws(whole as real, (n - 1) as real, g);
      TimesOrder(units as real, whole as real + (n - 1) as real, g);
    }
  }

  // ---- precision ---------------------------------------------------------------------------

  function WithPrecision(t: Terms, p: Precision): Terms {
    t.(schedule := t.schedule.(precision := p))
  }

  /** The coarser default is the finer fee rounded once more, so it never understates it and
      overstates it by less than a cent. */
  lemma PrecisionRefines(leg: Leg, t: Terms)
    requires Priced(leg, t)
    ensures Priced(leg, WithPrecision(t, Direct)) && Priced(leg, WithPrecision(t, NonDirect))
    ensures var direct := FeeOf(leg, WithPrecision(t, Direct));
            var nonDirect := FeeOf(leg, WithPrecision(t, NonDirect));
            && nonDirect == RoundUp(direct, 0.01)
            && direct <= nonDirect < direct + 0.01
  {
    var d, n := WithPrecision(t, Direct), WithPrecision(t, NonDirect);
    FeeIsRoundedRaw(leg, d);
    FeeIsRoundedRaw(leg, n);
    assert RawOf(leg, d) == RawOf(leg, n);
    RoundUpRefines(RawOf(leg, d), 0.0001, 100);
    assert 100 as real * 0.0001 == 0.01;
    RoundUpBounds(FeeOf(leg, d), 0.01);
  }

  // ---- shape -------------------------------------------------------------------------------

  lemma WeightShape(p: real, q: real, notional: real)
    requires notional > 0.0 && 0.0 <= p <= notional
    ensures PriceWeight(p, notional) == PriceWeight(notional - p, notional)
    ensures p <= q <= notional / 2.0 ==> PriceWeight(p, notional) <= PriceWeight(q, notional)
    ensures PriceWeight(p, notional) <= PriceWeight(notional / 2.0, notional)
  {
    TimesLaws(p, 0.0, notional - p);
    assert notional - (notional - p) == p;
    if p <= q <= notional / 2.0 { WeightRises(p, q, notional); }
    WeightRises(if p <= notional / 2.0 then p else notional - p, notional / 2.0, notional);
    hide Times, Over;
  }

  lemma WeightRises(p: real, q: real, notional: real)
    requires notional > 0.0 && p <= q && p + q <= notional
    ensures PriceWeight(p, notional) <= PriceWeight(q, notional)
  {
    MulPositive(q - p, notional - p - q);
    assert q * (notional - q) - p * (notional - p) == (q - p) * (notional - p - q);
    OverLaws(Times(q, notional - q), Times(p, notional - p), notional);
    hide Over;
  }

  /** The charged fee never falls with size, is the same for a contract and its complement, never
      falls as the price nears half the notional, and is largest there. */
  lemma FeeShape(count: real, more: real, p: real, q: real, t: Terms)
    requires 0.0 <= count <= more && Priced(Leg(more, p), t)
    ensures Priced(Leg(count, p), t) && Priced(Leg(count, t.notional - p), t)
    ensures Priced(Leg(count, t.notional / 2.0), t)
    ensures FeeOf(Leg(count, p), t) <= FeeOf(Leg(more, p), t)
    ensures FeeOf(Leg(count, p), t) == FeeOf(Leg(count, t.notional - p), t)
    ensures p <= q <= t.notional / 2.0 ==>
              Priced(Leg(count, q), t) && FeeOf(Leg(count, p), t) <= FeeOf(Leg(count, q), t)
    ensures FeeOf(Leg(count, p), t) <= FeeOf(Leg(count, t.notional / 2.0), t)
  {
    PricedIff(Leg(more, p), t);
    PricedIff(Leg(count, p), t);
    PricedIff(Leg(count, t.notional - p), t);
    PricedIff(Leg(count, t.notional / 2.0), t);
    PricedIff(Leg(count, q), t);
    WeightShape(p, q, t.notional);
    WeightNonNegative(p, t.notional);
    var rate := Rate(t.schedule, t.role);
    var pw, hw := PriceWeight(p, t.notional), PriceWeight(t.notional / 2.0, t.notional);
    EachGrows(rate, 0.0, pw);
    EachGrows(rate, pw, hw);
    if p <= q <= t.notional / 2.0 { EachGrows(rate, pw, PriceWeight(q, t.notional)); }
    hide PriceWeight, Times, RoundUp, Rounded, RawFee;
    FeeMonotone(Leg(count, p), Leg(more, p), t);
    FeeMonotone(Leg(count, p), Leg(count, t.notional - p), t);
    FeeMonotone(Leg(count, t.notional - p), Leg(count, p), t);
    FeeMonotone(Leg(count, p), Leg(count, t.notional / 2.0), t);
    if p <= q <= t.notional / 2.0 { FeeMonotone(Leg(count, p), Leg(count, q), t); }
  }

  lemma EachGrows(rate: real, w: real, v: real)
    requires rate >= 0.0 && w <= v
    ensures Times(rate, w) <= Times(rate, v)
    ensures Times(rate, 0.0) == 0.0
  {
    TimesOrder(w, v, rate);
    TimesLaws(w, v, rate);
    TimesLaws(v, 0.0, rate);
  }

  lemma FeeMonotone(a: Leg, b: Leg, t: Terms)
    requires Priced(a, t) && Priced(b, t) && a.count <= b.count
    requires 0.0 <= FeePerContract(a.price, t).value <= FeePerContract(b.price, t).value
    ensures FeeOf(a, t) <= FeeOf(b, t)
  {
    hide Times, FeePerContract;
    var x, y := FeePerContract(a.price, t).value, FeePerContract(b.price, t).value;
    PricedIff(a, t);
    TimesOrder(x, y, a.count);
    TimesOrder(a.count, b.count, y);
    TimesLaws(y, 0.0, a.count);
    TimesLaws(y, 0.0, b.count);
    FeeIsRoundedRaw(a, t);
    FeeIsRoundedRaw(b, t);
    RoundUpMonotone(RawOf(a, t), RawOf(b, t), t.schedule.precision.Granularity());
  }

  // ---- maker and taker ---------------------------------------------------------------------

  /** A maker never pays more than a taker on any order exactly when the maker multiplier is at
      most four times the taker's (or the fee is flat); otherwise some order shows it. */
  lemma MakerIsCheaperIff(s: FeeSchedule, notional: real)
    requires notional > 0.0
    ensures (forall leg: Leg :: Priced(leg, Terms(s, Maker, notional)) ==>
               FeeOf(leg, Terms(s, Maker, notional)) <= FeeOf(leg, Terms(s, Taker, notional)))
            <==> s.feeType == Flat || EffectiveMakerMultiplier(s) <= 4.0 * s.takerMultiplier
  {
    var maker, taker := Terms(s, Maker, notional), Terms(s, Taker, notional);
    if s.feeType == Flat || EffectiveMakerMultiplier(s) <= 4.0 * s.takerMultiplier {
      forall leg: Leg | Priced(leg, maker) ensures FeeOf(leg, maker) <= FeeOf(leg, taker) {
        CheaperMaker(s, notional, leg);
      }
    } else {
      var leg := DearerMaker(s, notional);
    }
  }

  /** Schedules built from the API: which are refused, that a flat one prices nothing, and for which
      of the others resting an order is never dearer than crossing. */
  lemma ApiMakerIsCheaperIff(name: string, multiplier: real, precision: Precision, notional: real)
    requires notional > 0.0
    ensures FromApi(name, multiplier, precision).Success? <==>
              multiplier >= 0.0 && name in {"quadratic", "quadratic_with_maker_fees",
                                            "quadratic_with_combo_maker_fees", "flat"}
    ensures FromApi(name, multiplier, precision).Success? ==>
              var s := FromApi(name, multiplier, precision).value;
              if name == "flat" then
                forall leg: Leg, role: Role :: !Priced(leg, Terms(s, role, notional))
              else
                (forall leg: Leg :: Priced(leg, Terms(s, Maker, notional)) ==>
                   Priced(leg, Terms(s, Taker, notional))
                   && FeeOf(leg, Terms(s, Maker, notional)) <= FeeOf(leg, Terms(s, Taker, notional)))
                <==> (name == "quadratic_with_maker_fees" ==> multiplier >= 0.25)
                     && (name == "quadratic_with_combo_maker_fees" ==> multiplier >= 0.5)
  {
    if FromApi(name, multiplier, precision).Success? {
      var s := FromApi(name, multiplier, precision).value;
      MakerIsCheaperIff(s, notional);
      hide RawFee, Rate, RoundUp;
      forall leg: Leg, role: Role
        ensures Priced(leg, Terms(s, role, notional)) ==>
                  name != "flat" && Priced(leg, Terms(s, Taker, notional))
      {
        PricedIff(leg, Terms(s, role, notional));
        PricedIff(leg, Terms(s, Taker, notional));
      }
    }
  }

  lemma CheaperMaker(s: FeeSchedule, notional: real, leg: Leg)
    requires s.feeType == Flat || EffectiveMakerMultiplier(s) <= 4.0 * s.takerMultiplier
    requires Priced(leg, Terms(s, Maker, notional))
    ensures FeeOf(leg, Terms(s, Maker, notional)) <= FeeOf(leg, Terms(s, Taker, notional))
  {
    var maker, taker := Terms(s, Maker, notional), Terms(s, Taker, notional);
    PricedIff(leg, maker);
    PricedIff(leg, taker);
    assert s.feeType != Flat ==> Rate(s, Maker) <= Rate(s, Taker);
    hide PriceWeight, Times, Rate, RoundUp, Rounded;
    WeightNonNegative(leg.price, notional);
    TimesOrder(Rate(s, Maker), Rate(s, Taker), PriceWeight(leg.price, notional));
    TimesOrder(FeePerContract(leg.price, maker).value, FeePerContract(leg.price, taker).value, leg.count);
    FeeIsRoundedRaw(leg, maker);
    FeeIsRoundedRaw(leg, taker);
    RoundUpMonotone(RawOf(leg, maker), RawOf(leg, taker), s.precision.Granularity());
  }

  lemma DearerMaker(s: FeeSchedule, notional: real) returns (leg: Leg)
    requires notional > 0.0
    requires s.feeType != Flat && EffectiveMakerMultiplier(s) > 4.0 * s.takerMultiplier
    ensures Priced(leg, Terms(s, Maker, notional)) && Priced(leg, Terms(s, Taker, notional))
    ensures leg.count == leg.count.Floor as real
    ensures FeeOf(leg, Terms(s, Maker, notional)) > FeeOf(leg, Terms(s, Taker, notional))
  {
    var maker, taker := Terms(s, Maker, notional), Terms(s, Taker, notional);
    var p, g := notional / 2.0, s.precision.Granularity();
    assert Rate(s, Taker) < Rate(s, Maker);
    hide PriceWeight, Times, Rate, Over, RoundUp, Rounded;
    var w := PriceWeight(p, notional);
    WeightNonNegative(p, notional);
    TimesOrder(Rate(s, Taker), Rate(s, Maker), w);
    var dear, cheap := Times(Rate(s, Maker), w), Times(Rate(s, Taker), w);
    OverLaws(g, 0.0, dear - cheap);
    OverLaws(0.0, g, dear - cheap);
    var enough := Over(g, dear - cheap);
    var count := Ceil(enough) as real;
    TimesOrder(enough, count, dear - cheap);
    leg := Leg(count, p);
    PricedIff(leg, maker);
    PricedIff(leg, taker);
    FeeIsRoundedRaw(leg, maker);
    FeeIsRoundedRaw(leg, taker);
    TimesLaws(dear, cheap, count);
    TimesLaws(dear - cheap, 0.0, count);
  }

  // ---- a basket of NO legs -----------------------------------------------------------------

  function SumOfSquares(xs: seq<real>): real
    decreases |xs|
  {
    if xs == [] then 0.0 else Sq(xs[0]) + SumOfSquares(xs[1..])
  }

  /** Sum of the squared distances from `x`. */
  function SquaredDistance(xs: seq<real>, x: real): real
    decreases |xs|
  {
    if xs == [] then 0.0 else Sq(xs[0] - x) + SquaredDistance(xs[1..], x)
  }

  predicate AllEqual(xs: seq<real>) {
    forall i, j :: 0 <= i < |xs| && 0 <= j < |xs| ==> xs[i] == xs[j]
  }

  lemma {:induction false} DistanceExpands(xs: seq<real>, x: real)
    ensures SquaredDistance(xs, x)
            == SumOfSquares(xs) - 2.0 * Times(x, Sum(xs)) + Times(|xs| as real, Sq(x))
    decreases |xs|
  {
    hide Sq, Times;
    TimesLaws(0.0, 0.0, Sq(x));
    TimesLaws(0.0, 0.0, x);
    TimesLaws(Sum(xs), 0.0, x);
    if xs == [] {
    } else {
      DistanceExpands(xs[1..], x);
      SqLaws(xs[0], x);
      TimesLaws(xs[0], Sum(xs[1..]), x);
      TimesLaws(xs[0], 0.0, x);
      TimesLaws(Sum(xs[1..]), 0.0, x);
      TimesLaws(|xs[1..]| as real, 1.0, Sq(x));
      assert |xs| as real == |xs[1..]| as real + 1.0;
    }
  }

  lemma {:induction false} DistanceZeroIff(xs: seq<real>, x: real)
    ensures SquaredDistance(xs, x) >= 0.0
    ensures SquaredDistance(xs, x) == 0.0 <==> forall i :: 0 <= i < |xs| ==> xs[i] == x
    decreases |xs|
  {
    hide Sq;
    if xs == [] {
    } else {
      DistanceZeroIff(xs[1..], x);
      SqSign(xs[0] - x);
      assert forall i :: 1 <= i < |xs| ==> xs[i] == xs[1..][i - 1];
    }
  }

  lemma {:induction false} SquaresDefect(xs: seq<real>)
    ensures Sq(Sum(xs)) <= Times(|xs| as real, SumOfSquares(xs))
    ensures Sq(Sum(xs)) == Times(|xs| as real, SumOfSquares(xs)) <==> AllEqual(xs)
    decreases |xs|
  {
    hide Sq, Times, SquaredDistance;
    SqSign(0.0);
    TimesLaws(0.0, 0.0, 0.0);
    if xs == [] {
    } else {
      var x, rest := xs[0], xs[1..];
      var n, s, q := |rest| as real, Sum(rest), SumOfSquares(rest);
      SquaresDefect(rest);
      DistanceExpands(rest, x);
      DistanceZeroIff(rest, x);
      assert |xs| as real == n + 1.0;
      SquaresStep(x, s, q, n);
      EqualToFirst(xs);
    }
  }

  lemma SquaresStep(x: real, s: real, q: real, n: real)
    ensures Times(n + 1.0, Sq(x) + q) - Sq(x + s)
            == (Times(n, q) - Sq(s)) + (q - 2.0 * Times(x, s) + Times(n, Sq(x)))
  {
    hide Sq, Times;
    TimesLaws(n, 1.0, Sq(x) + q);
    TimesLaws(Sq(x), q, n);
    TimesLaws(q, 0.0, n);
    TimesLaws(Sq(x), 0.0, n);
    TimesLaws(Sq(x) + q, 0.0, n);
    TimesLaws(s, 0.0, x);
    SqLaws(x, s);
  }

  lemma EqualToFirst(xs: seq<real>)
    requires xs != []
    ensures AllEqual(xs) <==> forall i :: 0 <= i < |xs[1..]| ==> xs[1..][i] == xs[0]
    ensures AllEqual(xs) ==> AllEqual(xs[1..])
  {
    if AllEqual(xs) {
      assert forall i :: 0 <= i < |xs[1..]| ==> xs[1..][i] == xs[i + 1] && xs[i + 1] == xs[0];
    }
    if forall i :: 0 <= i < |xs[1..]| ==> xs[1..][i] == xs[0] {
      assert forall i :: 1 <= i < |xs| ==> xs[i] == xs[1..][i - 1];
    }
  }

  /** For n numbers, n times their sum of squares is at least the square of their sum, and equal
      to it exactly when they are all the same. */
  lemma SquaresExceed(xs: seq<real>)
    ensures Sum(xs) * Sum(xs) <= |xs| as real * SumOfSquares(xs)
    ensures Sum(xs) * Sum(xs) == |xs| as real * SumOfSquares(xs) <==> AllEqual(xs)
  {
    ProductsByName(Sum(xs), |xs| as real, SumOfSquares(xs));
    hide *;
    SquaresDefect(xs);
  }

  lemma ProductsByName(x: real, y: real, z: real)
    ensures Sq(x) == x * x && Times(y, z) == y * z
  {}

  /** A NO leg of `count` contracts at the ask derived from each YES bid. */
  function NoLegs(bids: seq<real>, count: real, notional: real): seq<Leg> {
    seq(|bids|, i requires 0 <= i < |bids| => Leg(count, notional - bids[i]))
  }

  /** The closed form of such a basket's model fee: rate * count * (S - Q / notional). */
  function NoBasketFee(rate: real, count: real, bids: seq<real>, notional: real): real
    requires notional > 0.0
  {
    Times(Times(rate, count), Sum(bids) - Over(SumOfSquares(bids), notional))
  }

  /** What it would be with every bid at the average: rate * count * (S - S^2 / (n * notional)). */
  function EvenBasketFee(rate: real, count: real, bids: seq<real>, notional: real): real
    requires notional > 0.0 && |bids| >= 1
  {
    Times(Times(rate, count), Sum(bids) - Over(Over(Sq(Sum(bids)), |bids| as real), notional))
  }

  lemma NoLegWeight(bid: real, notional: real)
    requires notional > 0.0
    ensures PriceWeight(notional - bid, notional) == bid - Over(Sq(bid), notional)
  {
    var price := notional - bid;
    assert notional - price == bid;
    assert Times(price, bid) == Times(bid, notional) - Sq(bid);
    hide Times, Sq, Over;
    OverLaws(Sq(bid), 0.0, notional);
    TimesLaws(bid, Over(Sq(bid), notional), notional);
    OverUnique(Times(price, bid), notional, bid - Over(Sq(bid), notional));
    assert PriceWeight(price, notional) == Over(Times(price, bid), notional);
  }

  lemma {:induction false} NoBasketRaw(bids: seq<real>, count: real, t: Terms)
    requires t.notional > 0.0 && t.schedule.feeType != Flat
    requires AllPriced(NoLegs(bids, count, t.notional), t)
    ensures RawTotal(NoLegs(bids, count, t.notional), t)
            == NoBasketFee(Rate(t.schedule, t.role), count, bids, t.notional)
    decreases |bids|
  {
    hide Times, Over, Sq, Rate, PriceWeight;
    var v, rate := t.notional, Rate(t.schedule, t.role);
    var legs, k := NoLegs(bids, count, v), Times(rate, count);
    OverLaws(0.0, 0.0, v);
    TimesLaws(0.0, 0.0, k);
    if bids != [] {
      assert legs[1..] == NoLegs(bids[1..], count, v);
      assert legs[0] == Leg(count, v - bids[0]);
      NoBasketRaw(bids[1..], count, t);
      NoLegWeight(bids[0], v);
      var each := bids[0] - Over(Sq(bids[0]), v);
      var rest := Sum(bids[1..]) - Over(SumOfSquares(bids[1..]), v);
      TimesAssociates(rate, each, count);
      OverLaws(Sq(bids[0]), SumOfSquares(bids[1..]), v);
      TimesLaws(each, rest, k);
      TimesLaws(each, 0.0, k);
      TimesLaws(rest, 0.0, k);
      TimesLaws(each + rest, 0.0, k);
      assert each + rest == Sum(bids) - Over(SumOfSquares(bids), v);
    } else {
      TimesLaws(k, 0.0, 0.0);
    }
  }

  /** The fee of buying every NO leg is at most what it would be with all bids equal to their
      average, and is exactly that when they are (or nothing is charged at all). */
  lemma NoBasketFeeBound(bids: seq<real>, count: real, t: Terms)
    requires |bids| >= 1 && t.notional > 0.0 && t.schedule.feeType != Flat
    requires AllPriced(NoLegs(bids, count, t.notional), t)
    ensures var raw := RawTotal(NoLegs(bids, count, t.notional), t);
            var even := EvenBasketFee(Rate(t.schedule, t.role), count, bids, t.notional);
            && raw <= even
            && (raw == even <==> AllEqual(bids) || Times(Rate(t.schedule, t.role), count) == 0.0)
  {
    hide Times, Over, Sq, Rate, PriceWeight;
    var rate, n, v := Rate(t.schedule, t.role), |bids| as real, t.notional;
    NoBasketRaw(bids, count, t);
    assert NoLegs(bids, count, v)[0].count == count;
    PricedIff(NoLegs(bids, count, v)[0], t);
    TimesOrder(rate, 0.0, count);
    SquaresDefect(bids);
    EvenIsDearest(Times(rate, count), Sum(bids), SumOfSquares(bids), n, v);
    hide RawTotal, Sum, SumOfSquares, AllEqual;
  }

  lemma EvenIsDearest(k: real, s: real, q: real, n: real, v: real)
    requires k >= 0.0 && n > 0.0 && v > 0.0 && Sq(s) <= Times(n, q)
    ensures Times(k, s - Over(q, v)) <= Times(k, s - Over(Over(Sq(s), n), v))
    ensures Times(k, s - Over(q, v)) == Times(k, s - Over(Over(Sq(s), n), v))
            <==> Sq(s) == Times(n, q) || k == 0.0
  {
    hide Times, Over, Sq;
    var mean := Over(Sq(s), n);
    TimesLaws(q, 0.0, n);
    OverUnique(Times(n, q), n, q);
    OverLaws(Times(n, q), Sq(s), n);
    OverLaws(Sq(s), Times(n, q), n);
    OverLaws(q, mean, v);
    OverLaws(mean, q, v);
    var x, y := s - Over(q, v), s - Over(mean, v);
    TimesOrder(x, y, k);
    TimesLaws(x, y, k);
    TimesLaws(y, x, k);
    TimesLaws(0.0, 0.0, x);
    TimesLaws(0.0, 0.0, y);
  }
}
