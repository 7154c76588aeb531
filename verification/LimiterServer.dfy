/** Exactly which servers the local budget keeps a client within. */
module LimiterServer {
  import opened BucketSpec
  import opened RealArith
  import opened LimiterProtocol
  import opened LimiterBounds
  import opened LimiterCompletion
  import opened LimiterLead
  import opened Limiter

  lemma {:induction false} OnTimeIsNoLead(s: State, es: seq<Event>)
    requires Runs(s, es) && RunsOnTime(s, es)
    ensures RunsWithLead(s, es, 0.0)
    decreases |es|
  {
    if es == [] {
    } else {
      OnTimeIsNoLead(Apply(s, es[0]), es[1..]);
    }
  }

  lemma {:induction false} EagerIsOnTime(s: State, es: seq<Event>, b: Bucket)
    requires Runs(s, es) && RunsEagerly(s, es, b)
    ensures RunsOnTime(s, es)
    decreases |es|
  {
    if es == [] {
    } else {
      EagerIsOnTime(Apply(s, es[0]), es[1..], b);
    }
  }

  /** A server that never refuses must be able to pay for the run. */
  lemma ServerPays(s: State, es: seq<Event>, b: Bucket, rate: real, capacity: real)
    requires Safe(s) && Runs(s, es) && rate > 0.0 && capacity >= 0.0
    requires Admits(Level(rate, capacity, capacity, s.clock), Trace(s, es, b))
    ensures Consumed(s, es, b) <= capacity + Gain(rate, Exec(s, es).clock - s.clock)
  {
    AdmittedIsPaidFor(s, es, b, Level(rate, capacity, capacity, s.clock));
    hide Gain, Exec, Consumed, Trace, Admits;
  }

  // ---- a server that banks less ------------------------------------------------------------

  /** The whole local capacity, at once. */
  lemma SmallerServerRefuses(rate: real, n: int, b: Bucket, rate': real, capacity': real)
    returns (s: State, es: seq<Event>)
    requires rate > 0.0 && n >= 1 && rate' > 0.0 && 0.0 <= capacity' < n as real
    ensures LeadRun(rate, n as real, b, 0.0, s, es)
    ensures !Admits(Level(rate', capacity', capacity', s.clock), Trace(s, es, b))
  {
    s := Fresh(Level(rate, n as real, n as real, 0.0), [Acquirer(b, n, Start), Acquirer(b, 1, Start)]);
    InitialIsSafe(s);
    es := Turn(0);
    var t := TakeWhole(s, b, n);
    hide Runs, Exec, Consumed, Trace, Admits, Turn, RunsWithLead;
    NoObserverAnyLead(s, es, 0.0);
    IsLeadRun(rate, n as real, b, 0.0, s, es);
    if Admits(Level(rate', capacity', capacity', s.clock), Trace(s, es, b)) {
      ServerPays(s, es, b, rate', capacity');
      GainLaws(rate', 0.0, 0.0);
      assert false;
    }
  }

  // ---- a server that refills slower --------------------------------------------------------

  function Ones(b: Bucket, k: nat): (callers: seq<Acquirer>)
    ensures |callers| == k
  {
    seq(k, i requires 0 <= i < k => Acquirer(b, 1, Start))
  }

  lemma {:induction false} OnesPending(b: Bucket, k: nat, capacity: real)
    requires capacity >= 1.0
    ensures Total(Ones(b, k), CostIfPending(b, capacity)) == k as real
  {
    if k == 0 {
    } else {
      assert Ones(b, k)[1..] == Ones(b, k - 1);
      OnesPending(b, k - 1, capacity);
    }
  }

  /** How many single tokens to ask for: enough that the slower server's bank runs out. */
  lemma EnoughCallers(rate: real, n: int, rate': real, capacity': real) returns (k: nat)
    requires rate > rate' > 0.0 && capacity' >= 0.0 && n >= 1
    ensures k >= n
    ensures k as real > capacity' + Gain(rate', (k as real - n as real) / rate)
  {
    var q := rate' / rate;
    DivTimes(rate', rate);
    DivUnique(rate, rate, 1.0);
    DivMonotone(rate', rate, rate);
    var room := capacity' - Times(q, n as real);
    var least := Over(room, 1.0 - q);
    k := if least < n as real then n else least.Floor + 1;
    OverLaws(room, 0.0, 1.0 - q);
    TimesOrder(least, k as real, 1.0 - q);
    SlowerGain(rate, rate', k as real - n as real);
    hide Over, Gain, Times;
    TimesLaws(1.0, q, k as real);
    TimesLaws(k as real, n as real, q);
    TimesLaws(1.0 - q, 0.0, k as real);
    TimesLaws(n as real, 0.0, q);
  }

  lemma SlowerGain(rate: real, rate': real, x: real)
    requires rate > 0.0
    ensures Gain(rate', x / rate) == Times(x, rate' / rate)
  {
    var y, q := x / rate, rate' / rate;
    assert y * rate == x && q * rate == rate';
    assert y * (q * rate) == (y * rate) * q;
  }

  /** A queue of single tokens, served as fast as the local budget allows. */
  lemma SlowerServerRefuses(rate: real, n: int, b: Bucket, rate': real, capacity': real)
    returns (s: State, es: seq<Event>)
    requires n >= 1 && rate > rate' > 0.0 && capacity' >= 0.0
    ensures LeadRun(rate, n as real, b, 0.0, s, es)
    ensures !Admits(Level(rate', capacity', capacity', s.clock), Trace(s, es, b))
  {
    var k := EnoughCallers(rate, n, rate', capacity');
    s := Fresh(Level(rate, n as real, n as real, 0.0), Ones(b, k));
    InitialIsSafe(s);
    OnesPending(b, k, n as real);
    assert s.levels.At(b).Held(s.clock) == n as real && CostPending(s, b) == k as real;
    es := EagerFinishExists(s, b);
    QueueDrainsExactly(s, es, b);
    ConsumedIsCostDone(s, es, b);
    FinishesAt(k as real, n as real, rate);
    EagerIsOnTime(s, es, b);
    OnTimeIsNoLead(s, es);
    hide Runs, Exec, Consumed, Trace, Admits, RunsWithLead, RunsOnTime, RunsEagerly;
    hide FinishTime, CostPending, CostDone, Gain;
    IsLeadRun(rate, n as real, b, 0.0, s, es);
    if Admits(Level(rate', capacity', capacity', s.clock), Trace(s, es, b)) {
      ServerPays(s, es, b, rate', capacity');
      assert false;
    }
  }

  lemma FinishesAt(cost: real, held: real, rate: real)
    requires rate > 0.0 && cost >= held
    ensures FinishTime(0.0, held, cost, rate) == (cost - held) / rate
  {
    DivTimes(cost - held, rate);
  }

  // ---- exactly which servers ---------------------------------------------------------------

  /** A server whose bucket starts full refuses nothing, in any run whose observers keep to the
      clock, exactly when it refills no slower and banks no less than the local bucket. */
  lemma ServerBudgetIff(rate: real, n: int, b: Bucket, rate': real, capacity': real)
    requires rate > 0.0 && n >= 1 && rate' > 0.0 && capacity' >= 0.0
    ensures (forall s, es :: LeadRun(rate, n as real, b, 0.0, s, es) ==>
               Admits(Level(rate', capacity', capacity', s.clock), Trace(s, es, b)))
            <==> rate' >= rate && capacity' >= n as real
  {
    hide Safe, Prompt, Runs, Exec, RunsWithLead, RunsOnTime, Trace;
    if rate' >= rate && capacity' >= n as real {
      forall s, es | LeadRun(rate, n as real, b, 0.0, s, es)
        ensures Admits(Level(rate', capacity', capacity', s.clock), Trace(s, es, b))
      {
        NoLeadIsOnTime(s, es, 0.0);
        FullServerNeverRefuses(s, es, b, rate', capacity');
      }
    } else if capacity' < n as real {
      var s, es := SmallerServerRefuses(rate, n, b, rate', capacity');
    } else {
      var s, es := SlowerServerRefuses(rate, n, b, rate', capacity');
    }
  }

  /** So if the comment in the limiter's constructor were right about the server, and some bucket of
      a tier above Basic banked one second, the two seconds the code banks would draw refusals. */
  lemma OneSecondServerRefuses(tier: Tier, b: Bucket)
    ensures var rate := TierBudget(tier).At(b);
            (forall s, es :: LeadRun(rate, rate * Burst(tier), b, 0.0, s, es) ==>
               Admits(Level(rate, rate, rate, s.clock), Trace(s, es, b)))
            <==> tier == Basic
  {
    var rate := TierBudget(tier).At(b);
    var n := (rate * Burst(tier)).Floor;
    assert rate > 0.0 && n >= 1 && n as real == rate * Burst(tier);
    hide LeadRun, Admits, Trace;
    ServerBudgetIff(rate, n, b, rate, rate);
  }
}
