/** The objects of api/ratelimit.py: a token bucket and a limiter updated in place, under a clock
    that only moves forward. `Acquire` is one coroutine's passage through the locked section;
    LimiterProtocol interleaves many. */
module Limiter {
  import opened Results
  import opened BucketSpec
  import opened LimiterProtocol
  import opened LimiterBounds
  import opened LimiterCompletion
  import opened RealArith

  /** The event loop's monotonic clock. Every reading may find it later than the last one left
      it, and a sleep may overrun. */
  class Clock {
    var now: real
    /** Seconds it has been asked to sleep, added up. */
    ghost var asked: real

    constructor (start: real)
      ensures now == start && asked == 0.0
    {
      now := start;
      asked := 0.0;
    }

    method Drift()
      modifies this`now
      ensures now >= old(now)
    {
      var later: real := *;
      if later > now {
        now := later;
      }
    }

    /** time.monotonic() */
    method Monotonic() returns (t: real)
      modifies this`now
      ensures t == now >= old(now)
    {
      Drift();
      t := now;
    }

    /** asyncio.sleep(delay) */
    method Sleep(delay: real)
      modifies this
      ensures now >= old(now) && now >= old(now) + delay
      ensures asked == old(asked) + delay
    {
      asked := asked + delay;
      if delay > 0.0 {
        now := now + delay;
      }
      Drift();
    }
  }

  class TokenBucket {
    const rate: real
    const capacity: real
    var tokens: real
    var updated: real
    /** Tokens handed out so far. */
    ghost var spent: real

    ghost function Value(): Level
      reads this
    {
      Level(rate, capacity, tokens, updated)
    }

    constructor (rate: real, capacity: real, tokens: real, updated: real)
      ensures Value() == Level(rate, capacity, tokens, updated) && spent == 0.0
    {
      this.rate, this.capacity, this.tokens, this.updated := rate, capacity, tokens, updated;
      spent := 0.0;
    }

    method Refill(now: real)
      modifies this`tokens, this`updated
      ensures Value() == old(Value()).Refill(now)
    {
      var elapsed := now - updated;
      if elapsed > 0.0 {
        tokens := Min(capacity, tokens + elapsed * rate);
        updated := now;
      }
    }

    method WaitTime(cost: real, now: real) returns (delay: real)
      requires Value().Sound()
      modifies this`tokens, this`updated
      ensures Value() == old(Value()).Refill(now)
      ensures delay == old(Value()).WaitTime(cost, now)
    {
      Refill(now);
      if tokens >= cost {
        return 0.0;
      }
      return (cost - tokens) / rate;
    }

    method Consume(cost: real, now: real)
      modifies this
      ensures Value() == old(Value()).Consume(cost, now)
      ensures spent == old(spent) + cost
    {
      Refill(now);
      tokens := tokens - cost;
      spent := spent + cost;
    }

    /** The locked section of `acquire`: looks, and sleeps off what it is told, until the cost is
        there; then takes it. */
    method WaitAndConsume(cost: real, clock: Clock)
      returns (waited: real, ghost looks: seq<real>, ghost found: real)
      requires Value().Sound() && 0.0 <= cost <= capacity
      modifies this, clock
      ensures Waited(old(Value()), cost, old(clock.now), looks, found, clock.now, waited)
      ensures clock.asked == old(clock.asked) + waited
      ensures old(Value()).Held(clock.now) >= cost
      ensures Value() == old(Value()).Consume(cost, clock.now) && Value().Sound()
      ensures spent == old(spent) + cost
    {
      ghost var initial, start, asked := Value(), clock.now, clock.asked;
      looks, found, waited := [], start, 0.0;
      BeginsWaiting(initial, cost, start);
      hide Level.Refill, Level.WaitTime, Level.Held, Level.Consume;
      hide Waiting, Waited, LooksAhead, LookedOnTime;
      while true
        invariant Waiting(initial, cost, start, looks, clock.now, Value(), waited)
        invariant spent == old(spent) && clock.asked == asked + waited
        decreases LooksAhead(initial, cost, clock.now), !LookedOnTime(initial, looks)
      {
        ghost var before, top := Value(), clock.now;
        var first := clock.Monotonic();
        found := first;
        WaitsToLook(initial, cost, start, looks, top, found, before, waited);
        var delay := WaitTime(cost, first);
        if delay <= 0.0 {
          var second := clock.Monotonic();
          TakesIt(initial, cost, start, looks, found, second, before, waited);
          Consume(cost, second);
          return;
        }
        clock.Sleep(delay);
        SleepsItOff(initial, cost, start, looks, top, found, clock.now, before, waited);
        waited := waited + delay;
        looks := looks + [found];
      }
    }
  }

  /** Having slept what was due at `lookedAt`, the next look finds the cost there. */
  lemma SecondLook(l: Level, cost: real, lookedAt: real, now: real)
    requires l.Sound() && l.updated <= lookedAt && 0.0 <= cost <= l.capacity
    requires now >= lookedAt + l.WaitTime(cost, lookedAt)
    ensures l.Refill(lookedAt).Sound() && l.Refill(lookedAt).WaitTime(cost, now) == 0.0
    ensures l.Refill(lookedAt).Refill(now) == l.Refill(now)
  {
    hide Gain, Level.Refill;
    RefillSound(l, lookedAt);
    WaitTimeIsLeast(l, cost, lookedAt, 0.0);
    WaitTimeIsLeast(l, cost, lookedAt, now - lookedAt);
    RefillTwice(l, lookedAt, now);
  }

  /** A loop that looked at bucket `l` at each of these times, found its cost missing and slept off
      the delay it was told, is at its next look no earlier than `until`. */
  ghost predicate SleptOff(l: Level, cost: real, start: real, looks: seq<real>, until: real)
    requires l.Sound()
    decreases |looks|
  {
    if looks == [] then start <= until
    else
      var look := looks[|looks| - 1];
      && SleptOff(l, cost, start, looks[..|looks| - 1], look)
      && l.WaitTime(cost, look) > 0.0 && look + l.WaitTime(cost, look) <= until
  }

  /** All the delays it was told. */
  ghost function TotalWait(l: Level, cost: real, looks: seq<real>): real
    requires l.Sound()
    decreases |looks|
  {
    if looks == [] then 0.0
    else TotalWait(l, cost, looks[..|looks| - 1]) + l.WaitTime(cost, looks[|looks| - 1])
  }

  /** The bucket after those looks. */
  ghost function Looked(l: Level, looks: seq<real>): Level {
    if looks == [] then l else l.Refill(looks[|looks| - 1])
  }

  /** Midway: bucket `l` has become `held`, and the loop is about to look again. */
  ghost predicate Waiting(l: Level, cost: real, start: real, looks: seq<real>, now: real, held: Level, waited: real) {
    && l.Sound() && 0.0 <= cost <= l.capacity
    && SleptOff(l, cost, start, looks, now)
    && held == Looked(l, looks) && held.Sound() && held.capacity == l.capacity
    && waited == TotalWait(l, cost, looks)
  }

  /** In the end: the cost was found at the look `found` and taken at `finish`; what was waited is
      exactly what the earlier looks were told. */
  ghost predicate Waited(l: Level, cost: real, start: real, looks: seq<real>, found: real, finish: real, waited: real) {
    && l.Sound()
    && SleptOff(l, cost, start, looks, found)
    && l.WaitTime(cost, found) == 0.0 && found <= finish
    && waited == TotalWait(l, cost, looks) >= 0.0 && start + waited <= finish
  }

  lemma BeginsWaiting(l: Level, cost: real, start: real)
    requires l.Sound() && 0.0 <= cost <= l.capacity
    ensures Waiting(l, cost, start, [], start, l, 0.0)
  {}

  lemma WaitsToLook(l: Level, cost: real, start: real, looks: seq<real>, now: real, look: real,
                    held: Level, waited: real)
    requires Waiting(l, cost, start, looks, now, held, waited) && now <= look
    ensures Waiting(l, cost, start, looks, look, held, waited) && held.Sound()
    ensures held.WaitTime(cost, look) == l.WaitTime(cost, look) >= 0.0
  {
    StillSleptOff(l, cost, start, looks, now, look);
    LookAgain(l, cost, start, looks, look);
    hide Level.WaitTime, Level.Refill, SleptOff, TotalWait;
  }

  lemma SleepsItOff(l: Level, cost: real, start: real, looks: seq<real>, top: real, look: real, woken: real,
                    held: Level, waited: real)
    requires Waiting(l, cost, start, looks, look, held, waited) && held.Sound() && top <= look
    requires held.WaitTime(cost, look) > 0.0 && look + held.WaitTime(cost, look) <= woken
    ensures Waiting(l, cost, start, looks + [look], woken, held.Refill(look), waited + held.WaitTime(cost, look))
    ensures LooksAhead(l, cost, woken) < LooksAhead(l, cost, top)
            || (LooksAhead(l, cost, woken) == LooksAhead(l, cost, top)
                && !LookedOnTime(l, looks) && LookedOnTime(l, looks + [look]))
  {
    LookAgain(l, cost, start, looks, look);
    RefillSound(held, look);
    FewerLooks(l, cost, top, look, woken);
    OnTimeNextFinds(l, cost, start, looks, look);
    OneMoreLook(l, cost, start, looks, look, woken);
    hide Level.WaitTime, Level.Refill, SleptOff, TotalWait, Looked, LooksAhead, LookedOnTime;
  }

  lemma TakesIt(l: Level, cost: real, start: real, looks: seq<real>, found: real, finish: real,
                held: Level, waited: real)
    requires Waiting(l, cost, start, looks, found, held, waited) && held.Sound()
    requires held.WaitTime(cost, found) <= 0.0 && found <= finish
    ensures Waited(l, cost, start, looks, found, finish, waited)
    ensures held.Refill(found).Consume(cost, finish) == l.Consume(cost, finish) && l.Held(finish) >= cost
    ensures l.Consume(cost, finish).Sound()
  {
    LookAgain(l, cost, start, looks, found);
    ThenConsumed(l, cost, start, looks, found, finish);
    SleptOffTakesTime(l, cost, start, looks, found);
    hide Level.WaitTime, Level.Refill, Level.Consume, Level.Held, SleptOff, TotalWait, Looked;
  }

  lemma {:induction false} SleptOffTakesTime(l: Level, cost: real, start: real, looks: seq<real>, until: real)
    requires l.Sound() && SleptOff(l, cost, start, looks, until)
    ensures TotalWait(l, cost, looks) >= 0.0 && start + TotalWait(l, cost, looks) <= until
    ensures looks != [] ==> start <= looks[|looks| - 1] <= until
    decreases |looks|
  {
    hide Level.WaitTime;
    if looks == [] {
    } else {
      SleptOffTakesTime(l, cost, start, looks[..|looks| - 1], looks[|looks| - 1]);
    }
  }

  /** At its next look the loop finds what a first look then would find. */
  lemma LookAgain(l: Level, cost: real, start: real, looks: seq<real>, look: real)
    requires l.Sound() && SleptOff(l, cost, start, looks, look)
    ensures var now := Looked(l, looks);
            && now.Sound() && now.Refill(look) == l.Refill(look)
            && now.WaitTime(cost, look) == l.WaitTime(cost, look) >= 0.0
    ensures Looked(l, looks).rate == l.rate && Looked(l, looks).capacity == l.capacity
  {
    SleptOffTakesTime(l, cost, start, looks, look);
    WaitTimeBrings(l, cost, look);
    if looks != [] {
      RefillSound(l, looks[|looks| - 1]);
      RefillTwice(l, looks[|looks| - 1], look);
    }
    hide Gain, Level.Refill;
  }

  lemma OneMoreLook(l: Level, cost: real, start: real, looks: seq<real>, look: real, until: real)
    requires l.Sound() && SleptOff(l, cost, start, looks, look)
    requires l.WaitTime(cost, look) > 0.0 && look + l.WaitTime(cost, look) <= until
    ensures SleptOff(l, cost, start, looks + [look], until)
    ensures TotalWait(l, cost, looks + [look]) == TotalWait(l, cost, looks) + l.WaitTime(cost, look)
    ensures Looked(l, looks + [look]) == l.Refill(look)
    ensures LookedOnTime(l, looks + [look]) <==> l.updated <= look
  {
    assert (looks + [look])[..|looks|] == looks;
    hide Level.WaitTime, Level.Refill;
  }

  /** A bucket that was not polled ahead is slept on at most once. */
  lemma OnTimeSleepsOnce(l: Level, cost: real, start: real, looks: seq<real>, until: real)
    requires l.Sound() && 0.0 <= cost <= l.capacity && l.updated <= start && SleptOff(l, cost, start, looks, until)
    ensures |looks| <= 1
    ensures looks != [] ==> TotalWait(l, cost, looks) == l.WaitTime(cost, looks[0]) && l.WaitTime(cost, until) == 0.0
    ensures looks == [] ==> TotalWait(l, cost, looks) == 0.0
  {
    hide Gain, Level.Refill, Level.WaitTime;
    if |looks| >= 1 {
      var look, front := looks[|looks| - 1], looks[..|looks| - 1];
      SleptOffTakesTime(l, cost, start, front, look);
      SecondLook(l, cost, look, until);
      LookAgainFinds(l, cost, look, until);
      if |looks| >= 2 {
        var before := front[|front| - 1];
        SleptOffTakesTime(l, cost, start, front[..|front| - 1], before);
        SecondLook(l, cost, before, look);
        LookAgainFinds(l, cost, before, look);
        assert false;
      }
      assert TotalWait(l, cost, looks[..0]) == 0.0;
    }
  }

  /** So a call on a bucket not polled ahead waits exactly what was due when it first looked. */
  lemma OnTimeWaitsOnce(l: Level, cost: real, start: real, looks: seq<real>, found: real, finish: real, waited: real)
    requires 0.0 <= cost <= l.capacity && l.updated <= start
    requires Waited(l, cost, start, looks, found, finish, waited)
    ensures |looks| <= 1
    ensures var first := if looks == [] then found else looks[0];
            start <= first && waited == l.WaitTime(cost, first)
  {
    OnTimeSleepsOnce(l, cost, start, looks, found);
    SleptOffTakesTime(l, cost, start, looks, found);
    hide Level.WaitTime, TotalWait;
  }

  lemma LookAgainFinds(l: Level, cost: real, first: real, second: real)
    requires l.Sound() && first <= second
    ensures l.Refill(first).Sound() && l.Refill(first).WaitTime(cost, second) == l.WaitTime(cost, second)
  {
    RefillSound(l, first);
    RefillTwice(l, first, second);
    hide Gain, Level.Refill;
  }

  /** Looking first and consuming later leaves what consuming alone would. */
  lemma ThenConsumed(l: Level, cost: real, start: real, looks: seq<real>, first: real, second: real)
    requires l.Sound() && 0.0 <= cost <= l.capacity && SleptOff(l, cost, start, looks, first) && first <= second
    requires l.WaitTime(cost, first) <= 0.0
    ensures var now := Looked(l, looks).Refill(first);
            && now.Consume(cost, second) == l.Consume(cost, second)
            && l.Held(second) >= cost
            && l.Consume(cost, second).Sound()
            && l.Consume(cost, second).updated == Max(l.updated, second)
  {
    LookAgain(l, cost, start, looks, first);
    RefillTwice(l, first, second);
    WaitTimeBrings(l, cost, first);
    HeldGrowth(l, first, second);
    RefillSound(l, second);
    hide Gain, Level.Refill, Level.WaitTime, Looked;
  }

  /** How often a loop can still look at a bucket that was polled ahead of the clock before the
      clock catches up: each look that finds the cost missing costs the same sleep. */
  ghost function LooksAhead(l: Level, cost: real, now: real): nat {
    if now < l.updated && l.tokens < cost && l.rate > 0.0
    then
      DivTimes(cost - l.tokens, l.rate);
      DivTimes(l.updated - now, (cost - l.tokens) / l.rate);
      ((l.updated - now) / ((cost - l.tokens) / l.rate)).Floor + 1
    else 0
  }

  lemma FewerLooks(l: Level, cost: real, top: real, first: real, woken: real)
    requires l.Sound() && l.WaitTime(cost, first) > 0.0
    requires top <= first && first + l.WaitTime(cost, first) <= woken
    ensures LooksAhead(l, cost, woken) <= LooksAhead(l, cost, top)
    ensures first < l.updated ==> LooksAhead(l, cost, woken) < LooksAhead(l, cost, top)
  {
    RefillSound(l, first);
    var d := (cost - l.tokens) / l.rate;
    if top < l.updated && woken < l.updated {
      assert l.WaitTime(cost, first) == d;
      Quotients(l.updated - top, l.updated - woken, d);
    }
  }

  lemma Quotients(x: real, y: real, d: real)
    requires d > 0.0 && y > 0.0 && y + d <= x
    ensures (y / d).Floor < (x / d).Floor
  {
    DivAdd(y, d, d);
    DivUnique(d, d, 1.0);
    DivMonotone(y + d, x, d);
  }

  datatype Tier = Basic | Advanced | Expert | Premier | Paragon | Prime | Prestige

  /** Tokens per second a tier is given for reads and for writes. */
  function TierBudget(tier: Tier): PerBucket<real> {
    match tier
    case Basic => PerBucket(200.0, 100.0)
    case Advanced => PerBucket(300.0, 300.0)
    case Expert => PerBucket(600.0, 600.0)
    case Premier => PerBucket(1000.0, 1000.0)
    case Paragon => PerBucket(2000.0, 2000.0)
    case Prime => PerBucket(4000.0, 4000.0)
    case Prestige => PerBucket(10000.0, 8000.0)
  }

  /** Seconds of budget a bucket can bank: one at Basic, two at every tier above it. */
  function Burst(tier: Tier): real {
    if tier == Basic then 1.0 else 2.0
  }

  function FullLevel(tier: Tier, b: Bucket, start: real): Level {
    var rate := TierBudget(tier).At(b);
    Level(rate, rate * Burst(tier), rate * Burst(tier), start)
  }

  /** The published budgets: tokens per second, and how many a bucket holds. */
  lemma PublishedBudgets(start: real)
    ensures FullLevel(Basic, Read, start) == Level(200.0, 200.0, 200.0, start)
    ensures FullLevel(Basic, Write, start) == Level(100.0, 100.0, 100.0, start)
    ensures FullLevel(Advanced, Read, start) == FullLevel(Advanced, Write, start) == Level(300.0, 600.0, 600.0, start)
    ensures FullLevel(Expert, Read, start) == FullLevel(Expert, Write, start) == Level(600.0, 1200.0, 1200.0, start)
    ensures FullLevel(Premier, Read, start) == FullLevel(Premier, Write, start) == Level(1000.0, 2000.0, 2000.0, start)
    ensures FullLevel(Paragon, Read, start) == FullLevel(Paragon, Write, start) == Level(2000.0, 4000.0, 4000.0, start)
    ensures FullLevel(Prime, Read, start) == FullLevel(Prime, Write, start) == Level(4000.0, 8000.0, 8000.0, start)
    ensures FullLevel(Prestige, Read, start) == Level(10000.0, 20000.0, 20000.0, start)
    ensures FullLevel(Prestige, Write, start) == Level(8000.0, 16000.0, 16000.0, start)
  {}

  const DEFAULT_TOKEN_COST := 10

  datatype CostError = NotPositive | NeverFits

  class RateLimiter {
    const tier: Tier
    const read: TokenBucket
    const write: TokenBucket

    ghost predicate Valid()
      reads this, read, write
    {
      && read != write
      && (forall b: Bucket {:trigger At(b)} :: SameBudget(At(b).Value(), FullLevel(tier, b, 0.0)))
      && read.Value().Sound() && write.Value().Sound()
    }

    static predicate SameBudget(l: Level, m: Level) {
      l.rate == m.rate && l.capacity == m.capacity
    }

    function At(b: Bucket): TokenBucket {
      if b == Read then read else write
    }

    /** Both buckets start full. */
    constructor (tier: Tier, start: real)
      ensures Valid() && fresh(read) && fresh(write) && this.tier == tier
      ensures read.Value() == FullLevel(tier, Read, start)
      ensures write.Value() == FullLevel(tier, Write, start)
      ensures read.rate == TierBudget(tier).read && write.rate == TierBudget(tier).write
      ensures read.tokens == read.capacity == read.rate * (if tier == Basic then 1.0 else 2.0)
      ensures write.tokens == write.capacity == write.rate * (if tier == Basic then 1.0 else 2.0)
      ensures read.spent == 0.0 && write.spent == 0.0
    {
      this.tier := tier;
      var budget, burst := TierBudget(tier), Burst(tier);
      this.read := new TokenBucket(budget.read, budget.read * burst, budget.read * burst, start);
      this.write := new TokenBucket(budget.write, budget.write * burst, budget.write * burst, start);
    }

    /** _check_cost: the error it raises, if any. */
    function CheckCost(b: Bucket, cost: int): Option<CostError> {
      if cost <= 0 then Some(NotPositive)
      else if cost as real > At(b).capacity then Some(NeverFits)
      else None
    }

    /** What _check_cost lets through: a positive cost that the bucket will at some time hold. */
    lemma RefusedCosts(b: Bucket, cost: int)
      requires Valid()
      ensures CheckCost(b, cost) == Some(NotPositive) <==> cost <= 0
      ensures CheckCost(b, cost) == Some(NeverFits) <==>
                cost > 0 && forall t: real :: At(b).Value().Held(t) < cost as real
      ensures CheckCost(b, cost) == None <==>
                cost > 0 && exists t: real :: At(b).Value().Held(t) >= cost as real
    {
      var l := At(b).Value();
      var later := l.updated + l.capacity / l.rate;
      FullInTheEnd(l, l.updated, later);
      forall t: real ensures l.Held(t) <= l.capacity {
        RefillSound(l, t);
      }
      assert l.Held(later) == l.capacity;
      hide Level.Held, Valid;
    }

    /** A call in the protocol is rejected exactly when _check_cost raises. */
    lemma CallRejectsWhatIsRefused(s: State, i: nat)
      requires i < |s.procs| && s.procs[i].at == Start
      requires s.LevelOf(i).capacity == At(s.procs[i].bucket).capacity
      ensures Apply(s, Call(i)).procs[i].at
              == if CheckCost(s.procs[i].bucket, s.procs[i].cost).Some? then Rejected else Queued
    {}

    /** The default cost of a request is never refused, at any tier. */
    lemma DefaultCostIsServed(b: Bucket)
      requires Valid()
      ensures CheckCost(b, DEFAULT_TOKEN_COST).None?
    {
      assert SameBudget(At(b).Value(), FullLevel(tier, b, 0.0));
    }

    method Available(b: Bucket, now: real) returns (tokens: real)
      requires Valid()
      modifies At(b)`tokens, At(b)`updated
      ensures Valid()
      ensures At(b).Value() == old(At(b).Value()).Refill(now)
      ensures tokens == old(At(b).Value()).Held(now)
    {
      RefillSound(At(b).Value(), now);
      At(b).Refill(now);
      tokens := At(b).tokens;
    }

    method WaitTime(b: Bucket, cost: int, now: real) returns (r: Result<real, CostError>)
      requires Valid()
      modifies At(b)`tokens, At(b)`updated
      ensures Valid()
      ensures r.Failure? <==> cost <= 0 || cost as real > At(b).capacity
      ensures r.Failure? ==> r.error == if cost <= 0 then NotPositive else NeverFits
      ensures r.Failure? ==> At(b).Value() == old(At(b).Value()) && Some(r.error) == CheckCost(b, cost)
      ensures r.Success? ==> At(b).Value() == old(At(b).Value()).Refill(now)
      ensures r.Success? ==> r.value == old(At(b).Value()).WaitTime(cost as real, now)
    {
      var error := CheckCost(b, cost);
      if error.Some? {
        return Failure(error.value);
      }
      RefillSound(At(b).Value(), now);
      var delay := At(b).WaitTime(cost as real, now);
      return Success(delay);
    }

    /** Waits until `cost` tokens are there, then takes them. However the clock drifts and whatever
        `now` the bucket was polled at before, the loop ends; the other bucket is not touched; the
        cost was there when it was taken, and the bucket is left as one consume at the final reading
        would leave it. It looked at the bucket at `looks`, sleeping off each time exactly what it
        was told, and at last at `found`; what is returned is exactly the time slept. */
    method Acquire(b: Bucket, cost: int, clock: Clock)
      returns (r: Result<real, CostError>, ghost looks: seq<real>, ghost found: real)
      requires Valid()
      modifies At(b), clock
      ensures Valid()
      ensures r.Failure? <==> cost <= 0 || cost as real > At(b).capacity
      ensures r.Failure? ==> r.error == if cost <= 0 then NotPositive else NeverFits
      ensures r.Failure? <==> CheckCost(b, cost).Some?
      ensures r.Failure? ==> Some(r.error) == CheckCost(b, cost)
      ensures r.Failure? ==> unchanged(At(b)) && unchanged(clock)
      ensures r.Success? ==>
        && Waited(old(At(b).Value()), cost as real, old(clock.now), looks, found, clock.now, r.value)
        && clock.asked == old(clock.asked) + r.value
      ensures r.Success? ==>
        && old(At(b).Value()).Held(clock.now) >= cost as real
        && At(b).Value() == old(At(b).Value()).Consume(cost as real, clock.now)
        && At(b).spent == old(At(b).spent) + cost as real
    {
      looks, found := [], clock.now;
      var error := CheckCost(b, cost);
      if error.Some? {
        return Failure(error.value), looks, found;
      }
      hide Level.Refill, Level.WaitTime, Level.Held, Waited;
      var waited;
      waited, looks, found := At(b).WaitAndConsume(cost as real, clock);
      return Success(waited), looks, found;
    }
  }

  /** The last look came no earlier than the last refill before it. */
  ghost predicate LookedOnTime(l: Level, looks: seq<real>) {
    looks != [] && l.updated <= looks[|looks| - 1]
  }

  lemma StillSleptOff(l: Level, cost: real, start: real, looks: seq<real>, until: real, later: real)
    requires l.Sound() && SleptOff(l, cost, start, looks, until) && until <= later
    ensures SleptOff(l, cost, start, looks, later)
  {}

  /** After a look that was on time, the next finds the cost there. */
  lemma OnTimeNextFinds(l: Level, cost: real, start: real, looks: seq<real>, look: real)
    requires l.Sound() && 0.0 <= cost <= l.capacity && SleptOff(l, cost, start, looks, look)
    requires l.WaitTime(cost, look) > 0.0
    ensures !LookedOnTime(l, looks)
  {
    hide Gain, Level.Refill, Level.WaitTime;
    if LookedOnTime(l, looks) {
      var before := looks[|looks| - 1];
      SleptOffTakesTime(l, cost, start, looks[..|looks| - 1], before);
      SecondLook(l, cost, before, look);
      LookAgainFinds(l, cost, before, look);
      assert false;
    }
  }

  // ---- Acquire among others ----------------------------------------------------------------

  /** Acquirer `i` holds the lock and is about to look again, having looked at `looks`. */
  ghost function AboutToLook(s: State, i: nat, looks: seq<real>, until: real): State
    requires i < |s.procs| && s.LevelOf(i).Sound()
  {
    var b := s.procs[i].bucket;
    s.Move(i, Checking(TotalWait(s.LevelOf(i), s.Cost(i), looks))).(
      clock := until,
      levels := s.levels.With(b, Looked(s.LevelOf(i), looks)),
      holder := s.holder.With(b, Some(i)))
  }

  /** Acquirer `i` has returned at `finish`: the cost is gone, the lock free, nothing else changed. */
  function AfterReturn(s: State, i: nat, waited: real, finish: real): State
    requires i < |s.procs|
  {
    var b := s.procs[i].bucket;
    s.Move(i, Done(waited)).(
      clock := finish,
      levels := s.levels.With(b, s.LevelOf(i).Consume(s.Cost(i), finish)),
      holder := s.holder.With(b, None))
  }

  /** One acquirer's events: look and sleep at each of `looks`, then look again at `until`. */
  ghost function Looking(i: nat, start: real, looks: seq<real>, until: real): seq<Event>
    decreases |looks|
  {
    if looks == [] then [Call(i), Lock(i), Tick(until - start)]
    else
      var look := looks[|looks| - 1];
      Looking(i, start, looks[..|looks| - 1], look) + [Check(i), Tick(until - look), Wake(i)]
  }

  ghost predicate MayCall(s: State, i: nat) {
    && i < |s.procs| && s.procs[i].at == Start && s.Fits(i) && s.holder.At(s.procs[i].bucket).None?
    && s.LevelOf(i).Sound()
  }

  lemma ThreeEvents(s: State, d: Event, e: Event, f: Event)
    requires Enabled(s, d) && Enabled(Apply(s, d), e) && Enabled(Apply(Apply(s, d), e), f)
    ensures Runs(s, [d, e, f]) && Exec(s, [d, e, f]) == Apply(Apply(Apply(s, d), e), f)
  {
    hide Apply, Enabled;
    var t := Apply(s, d);
    Unroll(Apply(t, e), [f]);
    Unroll(t, [e, f]);
    Unroll(s, [d, e, f]);
  }

  lemma FirstLookRuns(s: State, i: nat, until: real)
    requires MayCall(s, i) && s.clock <= until
    ensures Runs(s, Looking(i, s.clock, [], until))
    ensures Exec(s, Looking(i, s.clock, [], until)) == AboutToLook(s, i, [], until)
  {
    hide Level.Refill, Level.WaitTime, Runs, Exec;
    ThreeEvents(s, Call(i), Lock(i), Tick(until - s.clock));
  }

  /** A look that finds the cost missing, and the sleep it takes. */
  lemma NextLookRuns(s: State, i: nat, looks: seq<real>, look: real, until: real)
    requires MayCall(s, i) && SleptOff(s.LevelOf(i), s.Cost(i), s.clock, looks, look)
    requires s.LevelOf(i).WaitTime(s.Cost(i), look) > 0.0
    requires look + s.LevelOf(i).WaitTime(s.Cost(i), look) <= until
    ensures var es := [Check(i), Tick(until - look), Wake(i)];
            var t := AboutToLook(s, i, looks, look);
            Runs(t, es) && Exec(t, es) == AboutToLook(s, i, looks + [look], until)
  {
    var l, c, t := s.LevelOf(i), s.Cost(i), AboutToLook(s, i, looks, look);
    LookAgain(l, c, s.clock, looks, look);
    OneMoreLook(l, c, s.clock, looks, look, until);
    hide Level.Refill, Level.WaitTime, Runs, Exec, TotalWait, Looked, SleptOff;
    assert t.LevelOf(i) == Looked(l, looks) && t.Cost(i) == c;
    var t1 := Apply(t, Check(i));
    var t2 := Apply(t1, Tick(until - look));
    ThreeEvents(t, Check(i), Tick(until - look), Wake(i));
    assert Apply(t2, Wake(i)).procs == AboutToLook(s, i, looks + [look], until).procs;
  }

  lemma {:induction false} LooksRun(s: State, i: nat, looks: seq<real>, until: real)
    requires MayCall(s, i) && SleptOff(s.LevelOf(i), s.Cost(i), s.clock, looks, until)
    ensures Runs(s, Looking(i, s.clock, looks, until))
    ensures Exec(s, Looking(i, s.clock, looks, until)) == AboutToLook(s, i, looks, until)
    decreases |looks|
  {
    if looks == [] {
      FirstLookRuns(s, i, until);
    } else {
      var front, look := looks[..|looks| - 1], looks[|looks| - 1];
      assert front + [look] == looks;
      hide Level.WaitTime, Runs, Exec, AboutToLook, MayCall;
      LooksRun(s, i, front, look);
      NextLookRuns(s, i, front, look, until);
      RunsConcat(s, Looking(i, s.clock, front, look), [Check(i), Tick(until - look), Wake(i)]);
    }
  }

  lemma ReturnRuns(s: State, i: nat, looks: seq<real>, found: real, finish: real)
    requires MayCall(s, i) && SleptOff(s.LevelOf(i), s.Cost(i), s.clock, looks, found)
    requires s.LevelOf(i).WaitTime(s.Cost(i), found) == 0.0 && found <= finish
    ensures var es := [Check(i), Tick(finish - found), Consume(i)];
            var t := AboutToLook(s, i, looks, found);
            && Runs(t, es)
            && Exec(t, es) == AfterReturn(s, i, TotalWait(s.LevelOf(i), s.Cost(i), looks), finish)
  {
    var l, c, t := s.LevelOf(i), s.Cost(i), AboutToLook(s, i, looks, found);
    LookAgain(l, c, s.clock, looks, found);
    ThenConsumed(l, c, s.clock, looks, found, finish);
    hide Level.Refill, Level.WaitTime, Level.Consume, Runs, Exec, TotalWait, Looked, SleptOff;
    assert t.LevelOf(i) == Looked(l, looks) && t.Cost(i) == c;
    var t1 := Apply(t, Check(i));
    var t2 := Apply(t1, Tick(finish - found));
    ThreeEvents(t, Check(i), Tick(finish - found), Consume(i));
    assert Apply(t2, Consume(i)).procs
        == AfterReturn(s, i, TotalWait(s.LevelOf(i), s.Cost(i), looks), finish).procs;
  }

  /** What Acquire's contract says of one call is a run of the protocol: whatever looks, sleeps and
      instants the contract allows, on a bucket polled ahead or not, there is a run of this one
      acquirer with them that returns the same wait and leaves the same level. So what holds of all
      runs holds of calls of Acquire. */
  lemma AcquireIsARun(s: State, i: nat, looks: seq<real>, found: real, finish: real, waited: real)
    requires MayCall(s, i) && Waited(s.LevelOf(i), s.Cost(i), s.clock, looks, found, finish, waited)
    ensures var es := Looking(i, s.clock, looks, found) + [Check(i), Tick(finish - found), Consume(i)];
            Runs(s, es) && Exec(s, es) == AfterReturn(s, i, waited, finish)
  {
    hide Level.WaitTime, SleptOff, TotalWait, Runs, Exec, Looking, AfterReturn, MayCall, State.LevelOf, State.Cost;
    LooksRun(s, i, looks, found);
    ReturnRuns(s, i, looks, found, finish);
    RunsConcat(s, Looking(i, s.clock, looks, found), [Check(i), Tick(finish - found), Consume(i)]);
  }

  /** A limiter just built, with whoever is about to call it. */
  function Built(tier: Tier, start: real, clock: real, callers: seq<Acquirer>): State {
    State(clock, PerBucket(FullLevel(tier, Read, start), FullLevel(tier, Write, start)),
          PerBucket(None, None), callers)
  }

  lemma BuiltIsReady(tier: Tier, start: real, clock: real, callers: seq<Acquirer>, b: Bucket)
    requires start <= clock
    requires forall i :: 0 <= i < |callers| ==> callers[i].at == Start
    ensures var s := Built(tier, start, clock, callers);
            && Safe(s) && Prompt(s) && s.clock == clock
            && s.levels.At(b).rate == TierBudget(tier).At(b)
            && s.levels.At(b).capacity == TierBudget(tier).At(b) * Burst(tier)
  {
    var s := Built(tier, start, clock, callers);
    InitialIsSafe(s);
  }

  /** What a tier allows: from the moment the limiter is built, no run of any callers, however
      scheduled, late, cancelled or watched, takes more of a bucket's tokens than the banked burst
      plus the time that has passed pay for, up to the latest instant the bucket was polled at; for
      observers that keep to the clock, up to the clock. */
  lemma TierWindow(tier: Tier, start: real, clock: real, callers: seq<Acquirer>, es: seq<Event>, b: Bucket)
    requires start <= clock
    requires forall i :: 0 <= i < |callers| ==> callers[i].at == Start
    requires Runs(Built(tier, start, clock, callers), es)
    ensures var s := Built(tier, start, clock, callers);
            var t, rate := Exec(s, es), TierBudget(tier).At(b);
            && Consumed(s, es, b) <= rate * (Burst(tier) + t.Horizon(b) - clock)
            && (RunsOnTime(s, es) ==> Consumed(s, es, b) <= rate * (Burst(tier) + t.clock - clock))
  {
    hide *;
    var s := Built(tier, start, clock, callers);
    var t := Exec(s, es);
    BuiltIsReady(tier, start, clock, callers, b);
    PromptHorizon(s, b);
    HorizonBound(s, es, b);
    Distribute(TierBudget(tier).At(b), Burst(tier), t.Horizon(b) - clock);
    if RunsOnTime(s, es) {
      RunIsPrompt(s, es);
      PromptHorizon(t, b);
    }
  }
}
