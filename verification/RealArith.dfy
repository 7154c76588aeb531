/** The nonlinear facts about real products and quotients that the other modules lean on. */
module RealArith {

  lemma MulPositive(x: real, y: real)
    ensures x > 0.0 && y > 0.0 ==> x * y > 0.0
    ensures x >= 0.0 && y >= 0.0 ==> x * y >= 0.0
    ensures x * y == y * x
  {}

  lemma MulMonotone(x: real, y: real, k: real)
    requires k >= 0.0
    ensures x <= y ==> x * k <= y * k
    ensures x < y && k > 0.0 ==> x * k < y * k
  {
    MulPositive(y - x, k);
    assert y * k - x * k == (y - x) * k;
  }

  /** Scaling by a positive factor keeps and reflects the order. */
  lemma LessScales(x: real, y: real, k: real)
    requires k > 0.0
    ensures x < y <==> x * k < y * k
    ensures x <= y <==> x * k <= y * k
  {
    if x < y { MulMonotone(x, y, k); }
    if y < x { MulMonotone(y, x, k); }
  }

  lemma Distribute(k: real, x: real, y: real)
    ensures k * x + k * y == k * (x + y)
  {}

  lemma DivTimes(x: real, k: real)
    requires k > 0.0
    ensures x / k * k == x
    ensures x > 0.0 ==> x / k > 0.0
    ensures x >= 0.0 ==> x / k >= 0.0
    ensures x < 0.0 ==> x / k < 0.0
  {
    var q := x / k;
    assert q * k == x;
    if q <= 0.0 { MulMonotone(q, 0.0, k); }
    if q >= 0.0 { MulMonotone(0.0, q, k); }
  }

  lemma DivUnique(x: real, k: real, q: real)
    requires k > 0.0
    requires q * k == x
    ensures x / k == q
  {
    DivTimes(x, k);
    var p := x / k;
    if p < q { MulMonotone(p, q, k); }
    if q < p { MulMonotone(q, p, k); }
  }

  lemma DivMonotone(x: real, y: real, k: real)
    requires k > 0.0
    ensures x <= y ==> x / k <= y / k
    ensures x < y ==> x / k < y / k
  {
    DivTimes(x, k);
    DivTimes(y, k);
    var p, q := x / k, y / k;
    if q <= p { MulMonotone(q, p, k); }
    if q < p { MulMonotone(q, p, k); }
  }

  lemma DivAdd(x: real, y: real, k: real)
    requires k > 0.0
    ensures (x + y) / k == x / k + y / k
  {
    DivTimes(x, k);
    DivTimes(y, k);
    assert (x / k + y / k) * k == x / k * k + y / k * k;
    DivUnique(x + y, k, x / k + y / k);
  }

  // ---- products and quotients by name ------------------------------------------------------
  //
  // A proof about sums of products is easiest for the solver when the products are terms it does
  // not look into: such a proof hides these three and uses their laws.

  function Times(x: real, y: real): real {
    x * y
  }

  function Sq(x: real): real {
    Times(x, x)
  }

  function Over(x: real, k: real): real
    requires k > 0.0
  {
    x / k
  }

  lemma TimesLaws(x: real, y: real, k: real)
    ensures Times(x + y, k) == Times(x, k) + Times(y, k)
    ensures Times(x - y, k) == Times(x, k) - Times(y, k)
    ensures Times(x, k) == Times(k, x)
    ensures Times(0.0, k) == 0.0 && Times(1.0, k) == k
  {
    assert (x + y) * k == x * k + y * k;
    assert (x - y) * k == x * k - y * k;
  }

  lemma TimesAssociates(x: real, y: real, z: real)
    ensures Times(Times(x, y), z) == Times(x, Times(y, z))
    ensures Times(Times(x, y), z) == Times(Times(x, z), y)
  {}

  lemma TimesOrder(x: real, y: real, k: real)
    ensures k >= 0.0 && x <= y ==> Times(x, k) <= Times(y, k)
    ensures k > 0.0 ==> (x < y <==> Times(x, k) < Times(y, k))
    ensures k > 0.0 ==> (x == y <==> Times(x, k) == Times(y, k))
    ensures k >= 0.0 && x >= 0.0 ==> Times(x, k) >= 0.0
    ensures k > 0.0 && x > 0.0 ==> Times(x, k) > 0.0
  {
    if k > 0.0 {
      LessScales(x, y, k);
      LessScales(y, x, k);
    }
    MulPositive(x, k);
    if k >= 0.0 { MulMonotone(x, y, k); }
  }

  lemma SqLaws(x: real, y: real)
    ensures Sq(x - y) == Sq(x) - 2.0 * Times(y, x) + Sq(y)
    ensures Sq(x + y) == Sq(x) + 2.0 * Times(y, x) + Sq(y)
    ensures Sq(x) >= 0.0 && (Sq(x) == 0.0 <==> x == 0.0)
  {
    assert (x - y) * (x - y) == x * x - 2.0 * (y * x) + y * y;
    assert (x + y) * (x + y) == x * x + 2.0 * (y * x) + y * y;
    SqSign(x);
  }

  lemma SqSign(x: real)
    ensures Sq(x) >= 0.0 && (Sq(x) == 0.0 <==> x == 0.0)
  {
    if x < 0.0 {
      SqPositive(-x);
      assert Sq(-x) == Sq(x);
    } else if x > 0.0 {
      SqPositive(x);
    } else {
      assert Sq(0.0) == 0.0;
    }
  }

  lemma SqPositive(x: real)
    requires x > 0.0
    ensures Sq(x) > 0.0
  {
    TimesOrder(x, 0.0, x);
    hide Times;
  }

  lemma OverLaws(x: real, y: real, k: real)
    requires k > 0.0
    ensures Over(x + y, k) == Over(x, k) + Over(y, k)
    ensures Times(Over(x, k), k) == x
    ensures x < y <==> Over(x, k) < Over(y, k)
    ensures x == y <==> Over(x, k) == Over(y, k)
    ensures Over(0.0, k) == 0.0
  {
    DivAdd(x, y, k);
    DivTimes(x, k);
    DivMonotone(x, y, k);
    DivMonotone(y, x, k);
    DivUnique(0.0, k, 0.0);
  }

  /** Over(x, k) is the one number that times `k` is `x`. */
  lemma OverUnique(x: real, k: real, q: real)
    requires k > 0.0 && Times(q, k) == x
    ensures Over(x, k) == q
  {
    DivUnique(x, k, q);
  }
}
