/** contracts.py: binary contract payoffs, and the closed-form payoff bounds that stand in for
    enumerating the settlement states of an event. */
module Contracts {
  import opened Results
  import opened RealArith
  import opened Money

  datatype Outcome = Yes | No

  datatype Exclusivity = MutuallyExclusive | Partition | Unconstrained

  datatype PayoffBounds = PayoffBounds(minimum: real, maximum: real)

  function MakeBounds(minimum: real, maximum: real): Result<PayoffBounds, MoneyError> {
    if minimum > maximum then Failure(InvertedBounds) else Success(PayoffBounds(minimum, maximum))
  }

  function PositionPayoff(outcome: Outcome, resolvedYes: bool, count: real, notional: real)
    : Result<real, MoneyError>
  {
    var _ :- ParseCount(count);
    Success(if (outcome == Yes) == resolvedYes then count * notional else 0.0)
  }

  function DeriveAsk(oppositeBid: real, notional: real): Result<real, MoneyError> {
    var _ :- ParsePrice(oppositeBid, notional);
    Success(notional - oppositeBid)
  }

  function ComplementInvariantHolds(yesBid: real, noBid: real, notional: real): Result<bool, MoneyError> {
    var _ :- ParsePrice(yesBid, notional);
    var _ :- ParsePrice(noBid, notional);
    Success(yesBid + noBid <= notional)
  }

  function EffectiveSpread(yesBid: real, noBid: real, notional: real): Result<real, MoneyError> {
    var _ :- ParsePrice(yesBid, notional);
    var _ :- ParsePrice(noBid, notional);
    Success(notional - (yesBid + noBid))
  }

  function BasketPayoffBounds(nLegs: int, side: Outcome, exclusivity: Exclusivity,
                              count: real, notional: real): Result<PayoffBounds, MoneyError>
  {
    if nLegs < 1 then Failure(EmptyBasket) else
    var _ :- ParseCount(count);
    var unit := count * notional;
    var n := nLegs as real;
    var minYes := if exclusivity == Partition then 1.0 else 0.0;
    var maxYes := if exclusivity == Unconstrained then n else 1.0;
    var paying := PayingLegs(side, n, minYes, maxYes);
    MakeBounds(LegsPay(paying.0, unit), LegsPay(paying.1, unit))
  }

  /** What that many paying legs pay. */
  function LegsPay(legs: real, unit: real): real {
    legs * unit
  }

  /** YES legs pay where the leg resolves YES, NO legs everywhere else. */
  function PayingLegs(side: Outcome, n: real, minYes: real, maxYes: real): (real, real) {
    if side == Yes then (minYes, maxYes) else (n - maxYes, n - minYes)
  }

  function GuaranteedGrossEdge(totalCost: real, bounds: PayoffBounds): real {
    bounds.minimum - totalCost
  }

  // ---- settlement states -------------------------------------------------------------------

  /** How an event's legs resolved: true where the leg resolved YES. */
  type Settlement = seq<bool>

  function CountYes(st: Settlement): nat
    decreases |st|
  {
    if st == [] then 0 else (if st[0] then 1 else 0) + CountYes(st[1..])
  }

  predicate Permits(exclusivity: Exclusivity, st: Settlement) {
    match exclusivity
    case MutuallyExclusive => CountYes(st) <= 1
    case Partition => CountYes(st) == 1
    case Unconstrained => true
  }

  /** What `count` contracts on `side` of every leg pay in state `st`, leg by leg. */
  function BasketPayoff(st: Settlement, side: Outcome, count: real, notional: real): real
    requires count >= 0.0
    decreases |st|
  {
    if st == [] then 0.0
    else PositionPayoff(side, st[0], count, notional).value
         + BasketPayoff(st[1..], side, count, notional)
  }

  /** Every permitted state of `n` legs pays within the bounds, and each bound is paid in some. */
  ghost predicate ExactBounds(bounds: PayoffBounds, n: nat, side: Outcome, exclusivity: Exclusivity,
                              count: real, notional: real)
    requires count >= 0.0
  {
    && (forall st: Settlement :: |st| == n && Permits(exclusivity, st) ==>
          bounds.minimum <= BasketPayoff(st, side, count, notional) <= bounds.maximum)
    && (exists st: Settlement :: |st| == n && Permits(exclusivity, st)
          && BasketPayoff(st, side, count, notional) == bounds.minimum)
    && (exists st: Settlement :: |st| == n && Permits(exclusivity, st)
          && BasketPayoff(st, side, count, notional) == bounds.maximum)
  }

  lemma {:induction false} CountYesBound(st: Settlement)
    ensures CountYes(st) <= |st|
    decreases |st|
  {
    if st == [] {
    } else {
      CountYesBound(st[1..]);
    }
  }

  /** How many legs pay a holder of `side`. */
  function PayingCount(st: Settlement, side: Outcome): int {
    if side == Yes then CountYes(st) else |st| - CountYes(st)
  }

  lemma LegsPayLaws(legs: int, more: int, unit: real)
    ensures LegsPay(0.0, unit) == 0.0
    ensures LegsPay((legs + more) as real, unit) == LegsPay(legs as real, unit) + LegsPay(more as real, unit)
    ensures LegsPay(1.0, unit) == unit
  {
    var x, y := legs as real, more as real;
    assert (legs + more) as real == x + y;
    assert (x + y) * unit == x * unit + y * unit;
  }

  /** A basket pays for its YES legs, or for the others. */
  lemma {:induction false} PayoffCountsLegs(st: Settlement, side: Outcome, count: real, notional: real)
    requires count >= 0.0
    ensures BasketPayoff(st, side, count, notional) == LegsPay(PayingCount(st, side) as real, count * notional)
    decreases |st|
  {
    hide LegsPay;
    var unit := count * notional;
    if st == [] {
      LegsPayLaws(0, 0, unit);
    } else {
      PayoffCountsLegs(st[1..], side, count, notional);
      var pays := (side == Yes) == st[0];
      assert PositionPayoff(side, st[0], count, notional).value == if pays then unit else 0.0;
      LegsPayLaws(1, PayingCount(st[1..], side), unit);
      assert PayingCount(st, side) == (if pays then 1 else 0) + PayingCount(st[1..], side);
    }
  }

  /** The state in which exactly the first `k` legs resolve YES. */
  function FirstYes(n: nat, k: nat): Settlement
    requires k <= n
  {
    if n == 0 then [] else if k == 0 then [false] + FirstYes(n - 1, 0) else [true] + FirstYes(n - 1, k - 1)
  }

  lemma {:induction false} FirstYesCounts(n: nat, k: nat)
    requires k <= n
    ensures |FirstYes(n, k)| == n && CountYes(FirstYes(n, k)) == k
  {
    if n > 0 {
      FirstYesCounts(n - 1, if k == 0 then 0 else k - 1);
      var head := if k == 0 then false else true;
      assert FirstYes(n, k)[0] == head;
      assert FirstYes(n, k)[1..] == FirstYes(n - 1, if k == 0 then 0 else k - 1);
    }
  }

  /** How many legs pay: between what the class permits at worst and at best. */
  function WorstLegs(n: nat, side: Outcome, exclusivity: Exclusivity): nat
    requires n >= 1
  {
    match exclusivity
    case MutuallyExclusive => if side == Yes then 0 else n - 1
    case Partition => if side == Yes then 1 else n - 1
    case Unconstrained => 0
  }

  function BestLegs(n: nat, side: Outcome, exclusivity: Exclusivity): nat
    requires n >= 1
  {
    match exclusivity
    case MutuallyExclusive => if side == Yes then 1 else n
    case Partition => if side == Yes then 1 else n - 1
    case Unconstrained => n
  }

  lemma OnePossibility(n: nat, side: Outcome, exclusivity: Exclusivity)
    requires n >= 1
    ensures WorstLegs(n, side, exclusivity) <= BestLegs(n, side, exclusivity)
    ensures exclusivity == Partition <==> WorstLegs(n, side, exclusivity) == BestLegs(n, side, exclusivity)
  {}

  /** When the bounds exist at all: a leg, a non-negative count, and no negative unit payoff
      except where every permitted state pays the same. */
  lemma BoundsExist(n: int, side: Outcome, exclusivity: Exclusivity, count: real, notional: real)
    ensures BasketPayoffBounds(n, side, exclusivity, count, notional).Success? <==>
              n >= 1 && count >= 0.0
              && (exclusivity == Partition || count == 0.0 || notional >= 0.0)
    ensures var r := BasketPayoffBounds(n, side, exclusivity, count, notional);
            r.Success? ==>
              r.value == PayoffBounds(LegsPay(WorstLegs(n, side, exclusivity) as real, count * notional),
                                      LegsPay(BestLegs(n, side, exclusivity) as real, count * notional))
  {
    if n >= 1 && count >= 0.0 {
      hide BasketPayoffBounds, LegsPay;
      SignOfUnit(count, notional);
      OnePossibility(n, side, exclusivity);
      PayOrder(WorstLegs(n, side, exclusivity), BestLegs(n, side, exclusivity), count * notional);
      BoundsByLegs(n, side, exclusivity, count, notional);
    }
  }

  lemma BoundsByLegs(n: int, side: Outcome, exclusivity: Exclusivity, count: real, notional: real)
    requires n >= 1 && count >= 0.0
    ensures BasketPayoffBounds(n, side, exclusivity, count, notional)
            == MakeBounds(LegsPay(WorstLegs(n, side, exclusivity) as real, count * notional),
                          LegsPay(BestLegs(n, side, exclusivity) as real, count * notional))
  {
    hide LegsPay;
    var minYes := if exclusivity == Partition then 1.0 else 0.0;
    var maxYes := if exclusivity == Unconstrained then n as real else 1.0;
    assert PayingLegs(side, n as real, minYes, maxYes)
        == (WorstLegs(n, side, exclusivity) as real, BestLegs(n, side, exclusivity) as real);
  }

  lemma SignOfUnit(count: real, notional: real)
    requires count >= 0.0
    ensures count * notional >= 0.0 <==> count == 0.0 || notional >= 0.0
  {
    if count > 0.0 {
      LessScales(0.0, notional, count);
      LessScales(notional, 0.0, count);
      assert notional * count == count * notional;
    }
  }

  lemma PayOrder(worst: int, best: int, unit: real)
    requires worst <= best
    ensures LegsPay(worst as real, unit) <= LegsPay(best as real, unit) <==> worst == best || unit >= 0.0
  {
    if worst < best {
      var x, y := worst as real, best as real;
      LessScales(0.0, unit, y - x);
      assert unit * (y - x) == y * unit - x * unit;
    }
  }

  lemma PermittedLegs(st: Settlement, side: Outcome, exclusivity: Exclusivity)
    requires |st| >= 1 && Permits(exclusivity, st)
    ensures WorstLegs(|st|, side, exclusivity) <= PayingCount(st, side) <= BestLegs(|st|, side, exclusivity)
  {
    CountYesBound(st);
  }

  lemma LegsAttained(n: nat, side: Outcome, exclusivity: Exclusivity, legs: nat)
    returns (st: Settlement)
    requires n >= 1
    requires legs == WorstLegs(n, side, exclusivity) || legs == BestLegs(n, side, exclusivity)
    ensures |st| == n && Permits(exclusivity, st)
    ensures PayingCount(st, side) == legs
  {
    var k := if side == Yes then legs else n - legs;
    st := FirstYes(n, k);
    FirstYesCounts(n, k);
  }

  /** The payoff-state proof is exact. Whenever `basket_payoff_bounds` returns bounds, they are the
      true minimum and maximum of the basket's payoff over every settlement state the exclusivity
      class permits: no state pays outside them, and a permitted state attains each. */
  lemma BoundsAreExact(n: nat, side: Outcome, exclusivity: Exclusivity, count: real, notional: real)
    requires BasketPayoffBounds(n, side, exclusivity, count, notional).Success?
    ensures count >= 0.0
    ensures ExactBounds(BasketPayoffBounds(n, side, exclusivity, count, notional).value,
                        n, side, exclusivity, count, notional)
  {
    hide LegsPay, BasketPayoffBounds, BasketPayoff, WorstLegs, BestLegs, Permits, PayingCount;
    BoundsExist(n, side, exclusivity, count, notional);
    var unit := count * notional;
    SignOfUnit(count, notional);
    var worst, best := WorstLegs(n, side, exclusivity), BestLegs(n, side, exclusivity);
    OnePossibility(n, side, exclusivity);
    forall st: Settlement | |st| == n && Permits(exclusivity, st)
      ensures LegsPay(worst as real, unit) <= BasketPayoff(st, side, count, notional) <= LegsPay(best as real, unit)
    {
      PayoffCountsLegs(st, side, count, notional);
      PermittedLegs(st, side, exclusivity);
      PayOrder(worst, PayingCount(st, side), unit);
      PayOrder(PayingCount(st, side), best, unit);
    }
    var low := LegsAttained(n, side, exclusivity, worst);
    var high := LegsAttained(n, side, exclusivity, best);
    PayoffCountsLegs(low, side, count, notional);
    PayoffCountsLegs(high, side, count, notional);
  }

  /** Owning every YES and every NO leg pays the full notional of every leg in every state. */
  lemma YesAndNoComplete(st: Settlement, count: real, notional: real)
    requires count >= 0.0
    ensures BasketPayoff(st, Yes, count, notional) + BasketPayoff(st, No, count, notional)
            == LegsPay(|st| as real, count * notional)
  {
    PayoffCountsLegs(st, Yes, count, notional);
    PayoffCountsLegs(st, No, count, notional);
    LegsPayLaws(PayingCount(st, Yes), PayingCount(st, No), count * notional);
  }

  /** Buying both sides of one market at the derived asks loses exactly the spread however it
      resolves, so it profits just when the book is crossed and the integrity check fails. */
  lemma CrossedBookIsTheOnlyProfit(yesBid: real, noBid: real, notional: real, resolvedYes: bool)
    requires 0.0 <= yesBid <= notional && 0.0 <= noBid <= notional
    ensures var profit := PositionPayoff(Yes, resolvedYes, 1.0, notional).value
                          + PositionPayoff(No, resolvedYes, 1.0, notional).value
                          - DeriveAsk(noBid, notional).value - DeriveAsk(yesBid, notional).value;
            && profit == -EffectiveSpread(yesBid, noBid, notional).value
            && (profit > 0.0 <==> !ComplementInvariantHolds(yesBid, noBid, notional).value)
  {}

  /** The quantities taken from two bids exist exactly for bids between nothing and the notional. */
  lemma BidsInRange(yesBid: real, noBid: real, notional: real)
    ensures DeriveAsk(yesBid, notional).Success? <==> 0.0 <= yesBid <= notional
    ensures DeriveAsk(yesBid, notional).Success? ==> DeriveAsk(yesBid, notional).value + yesBid == notional
    ensures var inRange := 0.0 <= yesBid <= notional && 0.0 <= noBid <= notional;
            && (ComplementInvariantHolds(yesBid, noBid, notional).Success? <==> inRange)
            && (EffectiveSpread(yesBid, noBid, notional).Success? <==> inRange)
  {}

  /** Why there are no bounds: the first of these that holds. */
  lemma BoundsRefused(n: int, side: Outcome, exclusivity: Exclusivity, count: real, notional: real)
    requires BasketPayoffBounds(n, side, exclusivity, count, notional).Failure?
    ensures BasketPayoffBounds(n, side, exclusivity, count, notional).error
            == if n < 1 then EmptyBasket else if count < 0.0 then NegativeCount else InvertedBounds
  {}

  // ---- part of an event --------------------------------------------------------------------

  /** The legs of `st` that are kept, in order. */
  function Kept(st: Settlement, keep: seq<bool>): Settlement
    requires |st| == |keep|
    decreases |st|
  {
    if st == [] then [] else (if keep[0] then [st[0]] else []) + Kept(st[1..], keep[1..])
  }

  predicate YesIsKept(st: Settlement, keep: seq<bool>)
    requires |st| == |keep|
  {
    exists i :: 0 <= i < |st| && st[i] && keep[i]
  }

  lemma {:induction false} KeptCountsFewer(st: Settlement, keep: seq<bool>)
    requires |st| == |keep|
    ensures CountYes(Kept(st, keep)) <= CountYes(st)
    decreases |st|
  {
    if st == [] {
    } else {
      KeptCountsFewer(st[1..], keep[1..]);
      if keep[0] {
        assert Kept(st, keep)[1..] == Kept(st[1..], keep[1..]);
      } else {
        assert Kept(st, keep) == Kept(st[1..], keep[1..]);
      }
    }
  }

  lemma {:induction false} KeptCountsSome(st: Settlement, keep: seq<bool>)
    requires |st| == |keep|
    ensures CountYes(Kept(st, keep)) > 0 <==> YesIsKept(st, keep)
    decreases |st|
  {
    if st == [] {
    } else {
      KeptCountsSome(st[1..], keep[1..]);
      if keep[0] {
        assert Kept(st, keep)[1..] == Kept(st[1..], keep[1..]);
      } else {
        assert Kept(st, keep) == Kept(st[1..], keep[1..]);
      }
      if YesIsKept(st[1..], keep[1..]) {
        var i :| 0 <= i < |st| - 1 && st[1..][i] && keep[1..][i];
        assert st[i + 1] && keep[i + 1];
      }
      if YesIsKept(st, keep) && !(st[0] && keep[0]) {
        var i :| 0 <= i < |st| && st[i] && keep[i];
        assert st[1..][i - 1] && keep[1..][i - 1];
      }
    }
  }

  /** Dropping legs keeps "at most one YES" and "any number"; it keeps "exactly one YES" just when
      the leg that resolved YES is among those kept. */
  lemma PermitsWhenKept(exclusivity: Exclusivity, st: Settlement, keep: seq<bool>)
    requires |st| == |keep| && Permits(exclusivity, st)
    ensures Permits(exclusivity, Kept(st, keep)) <==> exclusivity != Partition || YesIsKept(st, keep)
  {
    KeptCountsFewer(st, keep);
    KeptCountsSome(st, keep);
  }
}
