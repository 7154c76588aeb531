/** What the rate limiter is for: how much any run can send in any window, and that a server
    metering at least as generously never has to refuse it. */
module LimiterBounds {
  import opened Results
  import opened BucketSpec
  import opened RealArith
  import opened LimiterProtocol

  // ---- the sliding window ------------------------------------------------------------------

  /** From instant `h` to `h'` the level `l` became `l'` and `taken` went out: what it holds now
      plus what went out is at most what it held plus what time brought. */
  predicate Ledger(l: Level, h: real, l': Level, h': real, taken: real) {
    && h' >= h
    && l.rate > 0.0 && l'.rate == l.rate
    && l'.Held(h') + taken <= l.Held(h) + Gain(l.rate, h' - h)
  }

  lemma LedgerOfRefill(l: Level, h: real, now: real, h': real)
    requires l.Sound() && l.updated <= h <= h' && now <= h'
    ensures Ledger(l, h, l.Refill(now), h', 0.0)
  {
    hide Gain, Level.WaitTime;
    HeldGrowth(l, h, h');
    RefillTwice(l, now, h');
  }

  lemma LedgerOfConsume(l: Level, clock: real, cost: real)
    requires l.Sound() && l.Held(clock) >= cost
    ensures Ledger(l, Max(clock, l.updated), l.Consume(cost, clock), Max(clock, l.updated), cost)
  {
    hide Gain, Level.WaitTime;
    RefillSound(l, clock);
    GainLaws(l.rate, 0.0, 0.0);
  }

  lemma LedgerChain(l: Level, h: real, l': Level, h': real, l'': Level, h'': real, x: real, y: real)
    requires Ledger(l, h, l', h', x) && Ledger(l', h', l'', h'', y)
    ensures Ledger(l, h, l'', h'', x + y)
  {
    hide Gain;
    GainLaws(l.rate, h' - h, h'' - h');
    assert (h' - h) + (h'' - h') == h'' - h;
  }

  lemma StepLedger(s: State, e: Event, b: Bucket)
    requires Safe(s) && Enabled(s, e)
    ensures var t := Apply(s, e);
            Ledger(s.levels.At(b), s.Horizon(b), t.levels.At(b), t.Horizon(b), Taken(s, e, b))
  {
    hide Ledger, Gain, Level.WaitTime;
    var l, h, h' := s.levels.At(b), s.Horizon(b), Apply(s, e).Horizon(b);
    match e
    case Tick(dt) =>
      LedgerOfRefill(l, h, l.updated, h');
    case Observe(b', now) =>
      RefillSound(l, now);
      LedgerOfRefill(l, h, if b == b' then now else l.updated, h');
    case Check(i) =>
      RefillSound(l, s.clock);
      LedgerOfRefill(l, h, if b == s.procs[i].bucket then s.clock else l.updated, h');
    case Consume(i) =>
      assert AcquirerSafe(s, i);
      RefillSound(l, s.clock);
      if b == s.procs[i].bucket {
        LedgerOfConsume(l, s.clock, s.Cost(i));
      } else {
        LedgerOfRefill(l, h, l.updated, h');
      }
    case _ =>
      LedgerOfRefill(l, h, l.updated, h');
  }

  lemma {:induction false} RunLedger(s: State, es: seq<Event>, b: Bucket)
    requires Safe(s) && Runs(s, es)
    ensures var t := Exec(s, es);
            Ledger(s.levels.At(b), s.Horizon(b), t.levels.At(b), t.Horizon(b), Consumed(s, es, b))
    decreases |es|
  {
    hide Ledger, Gain, Level.WaitTime;
    var l, h := s.levels.At(b), s.Horizon(b);
    if es == [] {
      LedgerOfRefill(l, h, l.updated, h);
    } else {
      var m, t := Apply(s, es[0]), Exec(s, es);
      StepLedger(s, es[0], b);
      StepIsSafe(s, es[0]);
      RunLedger(m, es[1..], b);
      LedgerChain(l, h, m.levels.At(b), m.Horizon(b), t.levels.At(b), t.Horizon(b),
                  Taken(s, es[0], b), Consumed(m, es[1..], b));
    }
  }

  /** The sliding-window bound. In every interleaving of acquirers and observers, between any two
      points of the run a bucket gives out at most its capacity plus its rate times the time
      between them, time being the clock or the latest `now` the bucket was polled at. */
  lemma WindowBound(s: State, es: seq<Event>, i: nat, j: nat, b: Bucket)
    requires Safe(s) && Runs(s, es)
    requires i <= j <= |es|
    ensures Runs(s, es[..i]) && Runs(s, es[..j]) && Runs(Exec(s, es[..i]), es[i..j])
    ensures var from, to := Exec(s, es[..i]), Exec(s, es[..j]);
            && Exec(from, es[i..j]) == to
            && Consumed(from, es[i..j], b)
               <= s.levels.At(b).capacity
                  + s.levels.At(b).rate * (to.Horizon(b) - from.Horizon(b))
  {
    hide *;
    assert es == es[..j] + es[j..];
    PrefixRuns(s, es[..j], es[j..]);
    assert es[..j] == es[..i] + es[i..j];
    PrefixRuns(s, es[..i], es[i..j]);
    RunsConcat(s, es[..i], es[i..j]);
    var from, to := Exec(s, es[..i]), Exec(s, es[..j]);
    RunIsSafe(s, es[..i]);
    RunIsSafe(s, es[..j]);
    RunLedger(from, es[i..j], b);
    SetupBudget(s, from, b);
    SafeIsSound(from, b);
    SafeIsSound(to, b);
    LedgerSpent(from.levels.At(b), from.Horizon(b), to.levels.At(b), to.Horizon(b),
                Consumed(from, es[i..j], b));
    assert Consumed(from, es[i..j], b)
           <= s.levels.At(b).capacity + Gain(s.levels.At(b).rate, to.Horizon(b) - from.Horizon(b));
    GainIsProduct(s.levels.At(b).rate, to.Horizon(b) - from.Horizon(b));
  }

  lemma SetupBudget(s: State, t: State, b: Bucket)
    requires SameSetup(s, t)
    ensures t.levels.At(b).rate == s.levels.At(b).rate
    ensures t.levels.At(b).capacity == s.levels.At(b).capacity
  {}

  lemma SafeIsSound(s: State, b: Bucket)
    requires Safe(s)
    ensures s.levels.At(b).Sound()
  {}

  lemma LedgerSpent(l: Level, h: real, l': Level, h': real, taken: real)
    requires l.Sound() && l'.Sound()
    requires Ledger(l, h, l', h', taken)
    ensures taken <= l.capacity + Gain(l.rate, h' - h)
  {
    RefillSound(l, h);
    RefillSound(l', h');
    hide Gain;
  }

  lemma {:induction false} PrefixRuns(s: State, xs: seq<Event>, ys: seq<Event>)
    requires Runs(s, xs + ys)
    ensures Runs(s, xs)
    decreases |xs|
  {
    if xs == [] {
    } else {
      assert (xs + ys)[0] == xs[0] && (xs + ys)[1..] == xs[1..] + ys;
      PrefixRuns(Apply(s, xs[0]), xs[1..], ys);
    }
  }

  /** The bound over a whole run. */
  lemma HorizonBound(s: State, es: seq<Event>, b: Bucket)
    requires Safe(s) && Runs(s, es)
    ensures Consumed(s, es, b)
            <= s.levels.At(b).capacity + s.levels.At(b).rate * (Exec(s, es).Horizon(b) - s.Horizon(b))
  {
    hide *;
    var t := Exec(s, es);
    RunLedger(s, es, b);
    RunIsSafe(s, es);
    SafeIsSound(s, b);
    SafeIsSound(t, b);
    LedgerSpent(s.levels.At(b), s.Horizon(b), t.levels.At(b), t.Horizon(b), Consumed(s, es, b));
    GainIsProduct(s.levels.At(b).rate, t.Horizon(b) - s.Horizon(b));
  }

  /** With observers that keep to the clock, the window is measured by the clock alone. */
  lemma ClockWindowBound(s: State, es: seq<Event>, b: Bucket)
    requires Safe(s) && Prompt(s) && Runs(s, es) && RunsOnTime(s, es)
    ensures Consumed(s, es, b)
            <= s.levels.At(b).capacity + s.levels.At(b).rate * (Exec(s, es).clock - s.clock)
  {
    hide *;
    HorizonBound(s, es, b);
    RunIsPrompt(s, es);
    PromptHorizon(s, b);
    PromptHorizon(Exec(s, es), b);
  }

  lemma PromptHorizon(s: State, b: Bucket)
    requires Safe(s) && Prompt(s)
    ensures s.Horizon(b) == s.clock && s.levels.At(b).Sound() && s.levels.At(b).updated <= s.clock
  {}

  /** One observer polling a second ahead of the clock is enough to break the clock's bound: the
      bucket refills with time that has not passed, so more than the capacity leaves it at a
      single instant. */
  lemma AheadObserverBreaksClockBound(s: State, es: seq<Event>)
    requires s == State(0.0, PerBucket(Level(200.0, 200.0, 200.0, 0.0), Level(100.0, 100.0, 100.0, 0.0)),
                        PerBucket(None, None), [Acquirer(Read, 200, Start), Acquirer(Read, 10, Start)])
    requires es == [Call(0), Lock(0), Check(0), Consume(0), Observe(Read, 1.0),
                    Call(1), Lock(1), Check(1), Consume(1)]
    ensures Initial(s) && Safe(s) && Prompt(s)
    ensures Runs(s, es) && !RunsOnTime(s, es)
    ensures Exec(s, es).clock == s.clock
    ensures Consumed(s, es, Read) > s.levels.read.capacity
  {
    hide Gain, Level.WaitTime;
    var s4, s9 := SpendAll(s, es);
    assert es[..4] + es[4..] == es;
    RunsConcat(s, es[..4], es[4..]);
  }

  lemma SpendAll(s: State, es: seq<Event>) returns (s4: State, s9: State)
    requires s == State(0.0, PerBucket(Level(200.0, 200.0, 200.0, 0.0), Level(100.0, 100.0, 100.0, 0.0)),
                        PerBucket(None, None), [Acquirer(Read, 200, Start), Acquirer(Read, 10, Start)])
    requires es == [Call(0), Lock(0), Check(0), Consume(0), Observe(Read, 1.0),
                    Call(1), Lock(1), Check(1), Consume(1)]
    ensures Runs(s, es[..4]) && s4 == Exec(s, es[..4]) && s4.clock == 0.0
    ensures Consumed(s, es[..4], Read) == 200.0
    ensures Runs(s4, es[4..]) && s9 == Exec(s4, es[4..]) && s9.clock == 0.0
    ensures Consumed(s4, es[4..], Read) == 10.0
    ensures !RunsOnTime(s4, es[4..])
  {
    s4 := OneTurn(s, 0);
    assert es[..4] == [Call(0), Lock(0), Check(0), Consume(0)];
    assert s4.levels.read.tokens == 0.0;
    var s5 := Apply(s4, Observe(Read, 1.0));
    RefilledInASecond();
    hide Gain, Level.Refill, Level.WaitTime;
    s9 := OneTurn(s5, 1);
    assert es[4..][1..] == [Call(1), Lock(1), Check(1), Consume(1)];
    Unroll(s4, es[4..]);
  }

  lemma RefilledInASecond()
    ensures Level(200.0, 200.0, 0.0, 0.0).Refill(1.0) == Level(200.0, 200.0, 200.0, 1.0)
    ensures Level(200.0, 200.0, 200.0, 1.0).Held(0.0) == 200.0
  {}

  /** An acquirer that finds its lock free and its cost at hand is through at once. */
  lemma OneTurn(s: State, i: nat) returns (t: State)
    requires i < |s.procs| && s.procs[i].at == Start && s.Fits(i) && s.LevelOf(i).Sound()
    requires s.holder.At(s.procs[i].bucket).None? && s.LevelOf(i).Held(s.clock) >= s.Cost(i)
    ensures var es := [Call(i), Lock(i), Check(i), Consume(i)];
            && Runs(s, es) && t == Exec(s, es)
            && Consumed(s, es, s.procs[i].bucket) == s.Cost(i)
    ensures t.clock == s.clock && t.holder.At(s.procs[i].bucket) == None
    ensures t.procs == s.procs[i := s.procs[i].(at := Done(0.0))]
    ensures t.LevelOf(i) == s.LevelOf(i).Consume(s.Cost(i), s.clock)
  {
    var s1 := Apply(s, Call(i));
    var s2 := Apply(s1, Lock(i));
    var s3 := Apply(s2, Check(i));
    RefillTwice(s.LevelOf(i), s.clock, s.clock);
    t := Apply(s3, Consume(i));
    Unroll(s3, [Consume(i)]);
    Unroll(s2, [Check(i), Consume(i)]);
    Unroll(s1, [Lock(i), Check(i), Consume(i)]);
    Unroll(s, [Call(i), Lock(i), Check(i), Consume(i)]);
  }

  /** Prepending an enabled event to a run. */
  lemma Unroll(s: State, es: seq<Event>)
    requires es != [] && Enabled(s, es[0]) && Runs(Apply(s, es[0]), es[1..])
    ensures Runs(s, es)
    ensures Exec(s, es) == Exec(Apply(s, es[0]), es[1..])
    ensures RunsOnTime(s, es) <==> OnTime(s, es[0]) && RunsOnTime(Apply(s, es[0]), es[1..])
    ensures forall b: Bucket ::
      Consumed(s, es, b) == Taken(s, es[0], b) + Consumed(Apply(s, es[0]), es[1..], b)
  {}

  // ---- the server --------------------------------------------------------------------------

  /** One request as the server sees it. */
  datatype Admission = Admission(at: real, cost: real)

  /** What the run sends on bucket `b`, and when. */
  function Trace(s: State, es: seq<Event>, b: Bucket): seq<Admission>
    requires Runs(s, es)
    decreases |es|
  {
    if es == [] then []
    else
      (if es[0].Consume? && s.procs[es[0].i].bucket == b
       then [Admission(s.clock, s.Cost(es[0].i))] else [])
      + Trace(Apply(s, es[0]), es[1..], b)
  }

  /** A server-side bucket that refuses, with a 429, whatever it has no tokens for. */
  predicate Admits(server: Level, trace: seq<Admission>)
    decreases |trace|
  {
    trace == [] ||
    (server.Held(trace[0].at) >= trace[0].cost
     && Admits(server.Consume(trace[0].cost, trace[0].at), trace[1..]))
  }

  /** The server's bucket is no slower, no smaller, and at the clock holds no less. */
  predicate Covers(server: Level, local: Level, clock: real) {
    && server.Sound()
    && server.rate >= local.rate && server.capacity >= local.capacity
    && server.updated <= clock
    && server.Held(clock) >= local.Held(clock)
  }

  lemma CoversLater(server: Level, local: Level, t1: real, t2: real)
    requires local.Sound() && local.updated <= t1 <= t2
    requires Covers(server, local, t1)
    ensures Covers(server, local, t2)
  {
    hide Gain;
    HeldGrowth(server, t1, t2);
    HeldGrowth(local, t1, t2);
    GainFaster(local.rate, server.rate, t2 - t1);
  }

  lemma GainFaster(slow: real, fast: real, dt: real)
    requires slow <= fast && dt >= 0.0
    ensures Gain(slow, dt) <= Gain(fast, dt)
  {
    MulMonotone(slow, fast, dt);
  }

  /** Any run is admitted without a single refusal by a server bucket that starts no emptier and
      meters at least as generously, even where the local bucket overflowed its cap. */
  lemma {:induction false} ServerNeverRefuses(s: State, es: seq<Event>, b: Bucket, server: Level)
    requires Safe(s) && Prompt(s) && Runs(s, es) && RunsOnTime(s, es)
    requires Covers(server, s.levels.At(b), s.clock)
    ensures Admits(server, Trace(s, es, b))
    decreases |es|
  {
    hide Gain, Level.WaitTime;
    if es == [] {
    } else {
      var e, t := es[0], Apply(s, es[0]);
      var l := s.levels.At(b);
      StepIsSafe(s, e);
      StepIsPrompt(s, e);
      if e.Consume? && s.procs[e.i].bucket == b {
        assert AcquirerSafe(s, e.i);
        RefillSound(server, s.clock);
        RefillSound(l, s.clock);
        var server' := server.Consume(s.Cost(e.i), s.clock);
        ServerNeverRefuses(t, es[1..], b, server');
        assert Trace(s, es, b)[1..] == Trace(t, es[1..], b);
      } else {
        match e {
          case Tick(dt) => CoversLater(server, l, s.clock, t.clock);
          case Observe(b', now) => RefillTwice(l, now, s.clock);
          case Check(i) => RefillTwice(l, s.clock, s.clock);
          case _ =>
        }
        ServerNeverRefuses(t, es[1..], b, server);
        assert Trace(s, es, b) == Trace(t, es[1..], b);
      }
    }
  }

  /** The case the module's documentation argues for: the server's bucket starts full. */
  lemma FullServerNeverRefuses(s: State, es: seq<Event>, b: Bucket, rate: real, capacity: real)
    requires Safe(s) && Prompt(s) && Runs(s, es) && RunsOnTime(s, es)
    requires rate >= s.levels.At(b).rate && capacity >= s.levels.At(b).capacity
    ensures Admits(Level(rate, capacity, capacity, s.clock), Trace(s, es, b))
  {
    hide Gain, Level.WaitTime;
    RefillSound(s.levels.At(b), s.clock);
    ServerNeverRefuses(s, es, b, Level(rate, capacity, capacity, s.clock));
  }
}
