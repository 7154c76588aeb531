/** The lazily refilled token bucket of api/ratelimit.py, as a value, and the laws its three
    operations obey. Time and tokens are exact reals. */
module BucketSpec {
  import opened RealArith

  function Min(x: real, y: real): real {
    if x <= y then x else y
  }

  function Max(x: real, y: real): real {
    if x >= y then x else y
  }

  /** Tokens that `dt` seconds bring at `rate` per second. Named so that proofs about runs can
      `hide` the product and use its laws instead. */
  function Gain(rate: real, dt: real): real {
    dt * rate
  }

  /** One bucket: what it refills at, what it can hold, what it held when last refilled. */
  datatype Level = Level(rate: real, capacity: real, tokens: real, updated: real) {

    predicate Sound() {
      rate > 0.0 && 0.0 <= tokens <= capacity
    }

    /** Lazy refill. A `now` at or before `updated` changes nothing. */
    function Refill(now: real): Level {
      var elapsed := now - updated;
      if elapsed > 0.0
      then this.(tokens := Min(capacity, tokens + Gain(rate, elapsed)), updated := now)
      else this
    }

    /** Tokens on hand at `now`. */
    function Held(now: real): real {
      Refill(now).tokens
    }

    /** Seconds until `cost` tokens are available, seen from `now`. */
    function WaitTime(cost: real, now: real): real
      requires Sound()
    {
      if Held(now) >= cost then 0.0 else (cost - Held(now)) / rate
    }

    /** Takes `cost` tokens without looking whether they are there. */
    function Consume(cost: real, now: real): Level {
      var refilled := Refill(now);
      refilled.(tokens := refilled.tokens - cost)
    }
  }

  /** Every refill a bucket is given by a list of polls, in the order they arrive. */
  function Polled(l: Level, polls: seq<real>): Level
    decreases |polls|
  {
    if polls == [] then l else Polled(l.Refill(polls[0]), polls[1..])
  }

  lemma GainGrows(rate: real, x: real, y: real)
    requires rate > 0.0 && x < y
    ensures Gain(rate, x) < Gain(rate, y)
  {
    MulMonotone(x, y, rate);
  }

  lemma GainLaws(rate: real, x: real, y: real)
    requires rate > 0.0
    ensures Gain(rate, x + y) == Gain(rate, x) + Gain(rate, y)
    ensures x <= y ==> Gain(rate, x) <= Gain(rate, y)
    ensures x < y ==> Gain(rate, x) < Gain(rate, y)
    ensures Gain(rate, 0.0) == 0.0
  {
    if x < y { GainGrows(rate, x, y); }
  }

  lemma GainIsProduct(rate: real, dt: real)
    ensures Gain(rate, dt) == rate * dt
  {}

  lemma RefillSound(l: Level, now: real)
    requires l.Sound()
    ensures l.Refill(now).Sound()
    ensures l.Refill(now).rate == l.rate && l.Refill(now).capacity == l.capacity
    ensures l.Refill(now).updated == Max(l.updated, now)
    ensures l.tokens <= l.Held(now)
  {
    GainLaws(l.rate, 0.0, now - l.updated);
    hide Gain;
  }

  /** Refilling on the way to `t2` loses nothing and gains nothing. */
  lemma RefillTwice(l: Level, t1: real, t2: real)
    requires l.Sound()
    requires t1 <= t2
    ensures l.Refill(t1).Refill(t2) == l.Refill(t2)
  {
    hide Gain;
    if l.updated < t1 < t2 {
      GainLaws(l.rate, t1 - l.updated, t2 - t1);
      assert (t1 - l.updated) + (t2 - t1) == t2 - l.updated;
      GainLaws(l.rate, 0.0, t1 - l.updated);
      GainLaws(l.rate, 0.0, t2 - t1);
    }
  }

  /** Between two instants the bucket gains at most what it refills in that time, and never
      loses. */
  lemma HeldGrowth(l: Level, t1: real, t2: real)
    requires l.Sound()
    requires t1 <= t2
    ensures l.Held(t1) <= l.Held(t2)
    ensures l.updated <= t1 ==> l.Held(t2) == Min(l.capacity, l.Held(t1) + Gain(l.rate, t2 - t1))
  {
    hide Gain;
    RefillTwice(l, t1, t2);
    RefillSound(l, t1);
    RefillSound(l.Refill(t1), t2);
    GainLaws(l.rate, 0.0, t2 - t1);
  }

  /** A poll, early or late, never makes a bucket look emptier. */
  lemma HeldAfterRefill(l: Level, now: real, t: real)
    requires l.Sound()
    ensures l.Refill(now).Held(t) >= l.Held(t)
  {
    hide Gain;
    RefillSound(l, now);
    RefillSound(l, t);
    if now <= t {
      RefillTwice(l, now, t);
    } else {
      RefillTwice(l, t, now);
      RefillSound(l.Refill(t), now);
    }
  }

  /** The lazy refill is path-independent: no set of polls taken by time `t`, in whatever order
      and however many, changes what the bucket holds at `t`. */
  lemma {:induction false} RefillIsPathIndependent(l: Level, polls: seq<real>, t: real)
    requires l.Sound()
    requires forall i :: 0 <= i < |polls| ==> polls[i] <= t
    ensures Polled(l, polls).Sound()
    ensures Polled(l, polls).Refill(t) == l.Refill(t)
    decreases |polls|
  {
    hide Gain;
    if polls == [] {
    } else {
      RefillSound(l, polls[0]);
      RefillTwice(l, polls[0], t);
      RefillIsPathIndependent(l.Refill(polls[0]), polls[1..], t);
    }
  }

  /** After sleeping WaitTime the cost fits exactly; after anything shorter it does not. */
  lemma WaitTimeIsLeast(l: Level, cost: real, now: real, delay: real)
    requires l.Sound() && l.updated <= now
    requires 0.0 <= cost <= l.capacity
    requires delay >= 0.0
    ensures l.WaitTime(cost, now) >= 0.0
    ensures l.Held(now + delay) >= cost <==> delay >= l.WaitTime(cost, now)
    ensures l.WaitTime(cost, now) > 0.0 ==> l.Held(now + l.WaitTime(cost, now)) == cost
  {
    WaitTimeBrings(l, cost, now);
    HeldGrowth(l, now, now + delay);
    hide Gain, Level.WaitTime;
    var w := l.WaitTime(cost, now);
    HeldGrowth(l, now, now + w);
    GainLaws(l.rate, delay, w);
    GainLaws(l.rate, w, delay);
  }

  lemma WaitTimeBrings(l: Level, cost: real, now: real)
    requires l.Sound()
    ensures var w := l.WaitTime(cost, now);
            if l.Held(now) >= cost then w == 0.0
            else w > 0.0 && Gain(l.rate, w) == cost - l.Held(now)
  {
    DivTimes(cost - l.Held(now), l.rate);
  }

  /** `cost` fits if one comes back `delay` after `now`. */
  predicate FitsAfter(l: Level, cost: real, now: real, delay: real) {
    l.Held(now + delay) >= cost
  }

  /** When WaitTime is the least sufficient delay: exactly when it is asked no earlier than the last
      refill, or the tokens left then suffice. Asked earlier, with tokens lacking, it is too short. */
  lemma WaitTimeIsLeastIff(l: Level, cost: real, now: real)
    requires l.Sound() && 0.0 <= cost <= l.capacity
    ensures (forall delay :: delay >= 0.0 ==> (FitsAfter(l, cost, now, delay) <==> delay >= l.WaitTime(cost, now)))
            <==> l.updated <= now || l.tokens >= cost
  {
    hide Gain, Level.WaitTime;
    var w := l.WaitTime(cost, now);
    WaitTimeBrings(l, cost, now);
    if l.updated <= now || l.tokens >= cost {
      forall delay | delay >= 0.0 ensures FitsAfter(l, cost, now, delay) <==> delay >= w {
        if l.updated <= now { WaitTimeIsLeast(l, cost, now, delay); }
        HeldGrowth(l, now, now + delay);
      }
    } else {
      TooShort(l, cost, now);
      assert !FitsAfter(l, cost, now, w);
    }
  }

  lemma TooShort(l: Level, cost: real, now: real)
    requires l.Sound() && 0.0 <= cost <= l.capacity
    requires l.updated > now && l.tokens < cost
    ensures l.Held(now + l.WaitTime(cost, now)) < cost
  {
    WaitTimeBrings(l, cost, now);
    hide Gain, Level.WaitTime;
    var w := l.WaitTime(cost, now);
    if l.updated < now + w {
      HeldGrowth(l, l.updated, now + w);
      GainLaws(l.rate, now + w - l.updated, w);
    }
  }

  /** A cost above the capacity never fits, however long one waits. */
  lemma OversizedNeverFits(l: Level, cost: real, now: real)
    requires l.Sound()
    ensures cost > l.capacity ==> l.Held(now) < cost
  {
    RefillSound(l, now);
    hide Gain;
  }
}
