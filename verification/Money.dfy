/** types.py: money values and the two roundings. Decimal is taken as exact: a price, a count or a
    fee is a real, and quantize is a rounding to a whole number of units. */
module Money {
  import opened Results
  import opened RealArith

  datatype MoneyError =
    | PriceOutsideRange
    | NegativeCount
    | NonPositiveNotional
    | NonPositiveGranularity
    | NegativeMultiplier
    | InvertedBounds
    | EmptyBasket
    | NothingToAmortise
    | UnmodelledFee

  /** Validates a price; the value it returns is the one it was given. */
  function ParsePrice(value: real, notional: real): Result<real, MoneyError> {
    if value < 0.0 || value > notional then Failure(PriceOutsideRange) else Success(value)
  }

  function ParseCount(value: real): Result<real, MoneyError> {
    if value < 0.0 then Failure(NegativeCount) else Success(value)
  }

  /** The least integer at or above `x`. */
  function Ceil(x: real): (n: int)
    ensures x <= n as real < x + 1.0
  {
    -((-x).Floor)
  }

  /** How many units of `g` it takes to reach `x`. */
  function UnitsUp(x: real, g: real): int
    requires g > 0.0
  {
    Ceil(x / g)
  }

  /** `x` rounded up to a multiple of `g`. */
  function RoundUp(x: real, g: real): real
    requires g > 0.0
  {
    UnitsUp(x, g) as real * g
  }

  function CeilTo(value: real, granularity: real): Result<real, MoneyError> {
    if granularity <= 0.0 then Failure(NonPositiveGranularity) else Success(RoundUp(value, granularity))
  }

  function FloorTo(value: real, granularity: real): Result<real, MoneyError> {
    if granularity <= 0.0 then Failure(NonPositiveGranularity)
    else Success((value / granularity).Floor as real * granularity)
  }

  /** `units` is the number of `g`-units of RoundUp(x, g) exactly when it reaches `x` and one
      unit less does not. */
  lemma RoundUpUnique(x: real, g: real, units: int)
    requires g > 0.0
    ensures units == UnitsUp(x, g) <==> x <= units as real * g < x + g
    ensures x <= units as real * g ==> UnitsUp(x, g) <= units
  {
    UnitStep(x, units as real, g);
  }

  lemma UnitStep(x: real, u: real, g: real)
    requires g > 0.0
    ensures x / g <= u < x / g + 1.0 <==> x <= u * g < x + g
    ensures x / g <= u <==> x <= u * g
  {
    DivTimes(x, g);
    StepByTimes(x, x / g, u, g);
  }

  lemma StepByTimes(x: real, q: real, u: real, g: real)
    requires g > 0.0 && Times(q, g) == x
    ensures q <= u < q + 1.0 <==> x <= Times(u, g) < x + g
    ensures q <= u <==> x <= Times(u, g)
  {
    hide Times;
    TimesLaws(q, 1.0, g);
    TimesOrder(u, q, g);
    TimesOrder(u, q + 1.0, g);
  }

  /** RoundUp is the least multiple of `g` at or above `x`, and less than one `g` above it. */
  lemma RoundUpBounds(x: real, g: real)
    requires g > 0.0
    ensures x <= RoundUp(x, g) < x + g
  {
    RoundUpUnique(x, g, UnitsUp(x, g));
  }

  lemma RoundUpMonotone(x: real, y: real, g: real)
    requires g > 0.0 && x <= y
    ensures UnitsUp(x, g) <= UnitsUp(y, g)
    ensures RoundUp(x, g) <= RoundUp(y, g)
  {
    RoundUpUnique(x, g, UnitsUp(y, g));
    RoundUpBounds(y, g);
    MulMonotone(UnitsUp(x, g) as real, UnitsUp(y, g) as real, g);
  }

  lemma RoundUpZero(g: real)
    requires g > 0.0
    ensures UnitsUp(0.0, g) == 0 && RoundUp(0.0, g) == 0.0
  {
    RoundUpUnique(0.0, g, 0);
  }

  /** Rounding to a fine grid and then to a coarser one of whole fine units is rounding to the
      coarse one at once. */
  lemma RoundUpRefines(x: real, fine: real, k: int)
    requires fine > 0.0 && k > 0
    ensures RoundUp(RoundUp(x, fine), k as real * fine) == RoundUp(x, k as real * fine)
  {
    hide UnitsUp, Ceil;
    var coarse := k as real * fine;
    MulPositive(k as real, fine);
    var n, m := UnitsUp(x, coarse), UnitsUp(x, fine);
    RoundUpBounds(x, fine);
    RoundUpBounds(x, coarse);
    Regroup(n, k, fine);
    RoundUpUnique(x, fine, n * k);
    MulMonotone(m as real, (n * k) as real, fine);
    assert x <= RoundUp(x, fine) <= RoundUp(x, coarse) < RoundUp(x, fine) + coarse;
    RoundUpUnique(RoundUp(x, fine), coarse, n);
  }

  lemma Regroup(n: int, k: int, g: real)
    ensures (n * k) as real * g == n as real * (k as real * g)
  {
    var x, y := n as real, k as real;
    assert (n * k) as real == x * y;
    assert x * y * g == x * (y * g);
  }

  /** Rounding is refused exactly for a unit that is not positive. */
  lemma UnitMustBePositive(x: real, g: real)
    ensures CeilTo(x, g).Success? <==> g > 0.0
    ensures FloorTo(x, g).Success? <==> g > 0.0
  {}

  /** The two roundings mirror each other and enclose the value. */
  lemma FloorMirrorsCeil(x: real, g: real)
    requires g > 0.0
    ensures FloorTo(x, g).Success? && CeilTo(-x, g).Success?
    ensures FloorTo(x, g).value == -CeilTo(-x, g).value
    ensures FloorTo(x, g).value <= x <= CeilTo(x, g).value
    ensures CeilTo(x, g).value - FloorTo(x, g).value < 2.0 * g
  {
    DivTimes(x, g);
    assert (-(x / g)) * g == -x;
    DivUnique(-x, g, -(x / g));
    RoundUpBounds(x, g);
    RoundUpBounds(-x, g);
    var n := (x / g).Floor;
    assert n as real * g == -((-n) as real * g);
  }
}
