/** How long acquire takes: nobody sleeps twice, nobody is stuck, and a queue drains at exactly
    the instant its total cost dictates. */
module LimiterCompletion {
  import opened BucketSpec
  import opened RealArith
  import opened LimiterProtocol
  import opened LimiterBounds

  // ---- bounded work ------------------------------------------------------------------------

  /** Steps an acquirer has left at most. */
  function Rank(at: Progress): nat {
    match at
    case Start => 6
    case Queued => 5
    case Checking(w) => if w > 0.0 then 2 else 4
    case Sleeping(_, _, _) => 3
    case Consuming(_) => 1
    case _ => 0
  }

  function OwnSteps(es: seq<Event>, i: nat): nat
    decreases |es|
  {
    if es == [] then 0
    else (if es[0].ByAcquirer() && es[0].i == i then 1 else 0) + OwnSteps(es[1..], i)
  }

  /** How often acquirer `i` goes to sleep on the rate limit during the run. */
  function Sleeps(s: State, es: seq<Event>, i: nat): nat
    requires Runs(s, es) && i < |s.procs|
    decreases |es|
  {
    if es == [] then 0
    else
      var t := Apply(s, es[0]);
      (if es[0] == Check(i) && t.procs[i].at.Sleeping? then 1 else 0) + Sleeps(t, es[1..], i)
  }

  lemma StepLowersRank(s: State, e: Event, i: nat)
    requires Safe(s) && Prompt(s) && Enabled(s, e) && i < |s.procs|
    ensures |Apply(s, e).procs| == |s.procs|
    ensures var was, now := Rank(s.procs[i].at), Rank(Apply(s, e).procs[i].at);
            if e.ByAcquirer() && e.i == i then now < was else now == was
    ensures e == Check(i) && Apply(s, e).procs[i].at.Sleeping? ==> Rank(s.procs[i].at) == 4
  {
    assert AcquirerPrompt(s, i) && AcquirerSafe(s, i);
    if e == Check(i) {
      WaitTimeBrings(s.LevelOf(i), s.Cost(i), s.clock);
    }
    hide Gain, Level.WaitTime;
  }

  /** The loop's termination measure, over any run with late wake-ups, polls and cancellations:
      an acquirer takes at most as many steps as its rank (six for a whole call) and sleeps at
      most once, and only if it had not slept before. */
  lemma {:induction false} AcquirerWorkIsBounded(s: State, es: seq<Event>, i: nat)
    requires Safe(s) && Prompt(s) && Runs(s, es) && RunsOnTime(s, es) && i < |s.procs|
    ensures |Exec(s, es).procs| == |s.procs|
    ensures OwnSteps(es, i) + Rank(Exec(s, es).procs[i].at) <= Rank(s.procs[i].at)
    ensures Sleeps(s, es, i) <= if Rank(s.procs[i].at) >= 4 then 1 else 0
    decreases |es|
  {
    hide Gain, Level.WaitTime;
    if es == [] {
    } else {
      StepIsSafe(s, es[0]);
      StepIsPrompt(s, es[0]);
      StepKeepsSetup(s, es[0]);
      StepLowersRank(s, es[0], i);
      AcquirerWorkIsBounded(Apply(s, es[0]), es[1..], i);
    }
  }

  // ---- ledgers of what is done -------------------------------------------------------------

  /** Sum of `f` over all acquirers. */
  function Total(procs: seq<Acquirer>, f: Acquirer -> real): real
    decreases |procs|
  {
    if procs == [] then 0.0 else f(procs[0]) + Total(procs[1..], f)
  }

  lemma {:induction false} TotalUpdate(procs: seq<Acquirer>, i: nat, p: Acquirer, f: Acquirer -> real)
    requires i < |procs|
    ensures Total(procs[i := p], f) == Total(procs, f) - f(procs[i]) + f(p)
    decreases |procs|
  {
    if i == 0 {
      assert procs[0 := p][1..] == procs[1..];
    } else {
      assert procs[i := p][1..] == procs[1..][i - 1 := p];
      TotalUpdate(procs[1..], i - 1, p, f);
    }
  }

  function CostIfDone(b: Bucket): Acquirer -> real {
    (p: Acquirer) => if p.bucket == b && p.at.Done? then p.cost as real else 0.0
  }

  function WaitedIfDone(b: Bucket): Acquirer -> real {
    (p: Acquirer) => if p.bucket == b && p.at.Done? then p.at.waited else 0.0
  }

  function RankIn(b: Bucket): Acquirer -> real {
    (p: Acquirer) => if p.bucket == b then Rank(p.at) as real else 0.0
  }

  /** The cost of every call that has returned on bucket `b`. */
  function CostDone(s: State, b: Bucket): real {
    Total(s.procs, CostIfDone(b))
  }

  /** What those calls returned, added up. */
  function WaitedDone(s: State, b: Bucket): real {
    Total(s.procs, WaitedIfDone(b))
  }

  lemma StepTotals(s: State, e: Event, b: Bucket)
    requires Enabled(s, e)
    ensures CostDone(Apply(s, e), b) == CostDone(s, b) + Taken(s, e, b)
    ensures WaitedDone(Apply(s, e), b)
            == WaitedDone(s, b)
               + (if e.Consume? && s.procs[e.i].bucket == b then s.procs[e.i].at.waited else 0.0)
  {
    if e.ByAcquirer() {
      var p := Apply(s, e).procs[e.i];
      TotalUpdate(s.procs, e.i, p, CostIfDone(b));
      TotalUpdate(s.procs, e.i, p, WaitedIfDone(b));
    }
    hide Level.Refill, Level.WaitTime;
  }

  /** Conservation: a run takes out of a bucket exactly the costs of the calls that return during
      it. A call that was rejected or cancelled takes nothing. */
  lemma {:induction false} ConsumedIsCostDone(s: State, es: seq<Event>, b: Bucket)
    requires Runs(s, es)
    ensures Consumed(s, es, b) == CostDone(Exec(s, es), b) - CostDone(s, b)
    decreases |es|
  {
    if es == [] {
    } else {
      StepTotals(s, es[0], b);
      ConsumedIsCostDone(Apply(s, es[0]), es[1..], b);
    }
  }

  // ---- exact completion --------------------------------------------------------------------

  /** The instant by which `cost` tokens can have left a bucket that holds `held` at `start`. */
  function FinishTime(start: real, held: real, cost: real, rate: real): real
    requires rate > 0.0
  {
    start + Max(0.0, (cost - held) / rate)
  }

  lemma FinishTimeFromGain(start: real, held: real, cost: real, rate: real, elapsed: real)
    requires rate > 0.0
    ensures elapsed >= 0.0 && cost <= held + Gain(rate, elapsed) ==>
              start + elapsed >= FinishTime(start, held, cost, rate)
    ensures elapsed > 0.0 && cost == held + Gain(rate, elapsed) ==>
              start + elapsed == FinishTime(start, held, cost, rate)
  {
    var w := (cost - held) / rate;
    DivTimes(cost - held, rate);
    assert Gain(rate, w) == cost - held;
    GainLaws(rate, elapsed, w);
    GainLaws(rate, w, elapsed);
    hide Gain;
  }

  /** No run, however scheduled and however watched, completes calls costing more than the bucket
      can have paid for by the latest instant it knows of; for observers that keep to the clock,
      that instant is the clock. */
  lemma NoRunFinishesEarlier(s: State, es: seq<Event>, b: Bucket)
    requires Safe(s) && Runs(s, es)
    ensures s.levels.At(b).rate > 0.0
    ensures var t, rate := Exec(s, es), s.levels.At(b).rate;
            && t.Horizon(b) >= FinishTime(s.Horizon(b), s.levels.At(b).Held(s.Horizon(b)),
                                          CostDone(t, b) - CostDone(s, b), rate)
            && (Prompt(s) && RunsOnTime(s, es) ==>
                  t.clock >= FinishTime(s.clock, s.levels.At(b).Held(s.clock), CostDone(t, b) - CostDone(s, b), rate))
  {
    hide Gain, Level.WaitTime, FinishTime;
    var t := Exec(s, es);
    RunLedger(s, es, b);
    RunIsSafe(s, es);
    ConsumedIsCostDone(s, es, b);
    RefillSound(t.levels.At(b), t.Horizon(b));
    FinishTimeFromGain(s.Horizon(b), s.levels.At(b).Held(s.Horizon(b)), Consumed(s, es, b),
                       s.levels.At(b).rate, t.Horizon(b) - s.Horizon(b));
    if Prompt(s) && RunsOnTime(s, es) {
      RunIsPrompt(s, es);
      PromptHorizon(s, b);
      PromptHorizon(t, b);
    }
  }

  /** Ideal sleeps on bucket `b`: time passes only while its lock holder sleeps, never past the
      holder's wake-up; and nobody on it is cancelled. */
  predicate Eager(s: State, e: Event, b: Bucket)
    requires Enabled(s, e)
  {
    && OnTime(s, e)
    && (e.Tick? ==> e.dt == 0.0 || (SleeperOn(s, b) && s.clock + e.dt <= WakeUp(s, b)))
    && (e.Cancel? ==> s.procs[e.i].bucket != b)
  }

  predicate SleeperOn(s: State, b: Bucket) {
    && s.holder.At(b).Some?
    && s.holder.At(b).value < |s.procs|
    && s.procs[s.holder.At(b).value].at.Sleeping?
  }

  function WakeUp(s: State, b: Bucket): real
    requires SleeperOn(s, b)
  {
    s.procs[s.holder.At(b).value].at.until
  }

  predicate RunsEagerly(s: State, es: seq<Event>, b: Bucket)
    requires Runs(s, es)
    decreases |es|
  {
    es == [] || (Eager(s, es[0], b) && RunsEagerly(Apply(s, es[0]), es[1..], b))
  }

  /** Where an eager run that set out from `start` stands: nothing has overflowed, all the time
      that has passed was waited by somebody, and once time has passed, the bucket holds exactly
      what the current lock holder is waiting for. */
  ghost predicate OnSchedule(start: State, s: State, b: Bucket, spent: real) {
    var held := s.levels.At(b).Held(s.clock);
    && s.levels.At(b).rate == start.levels.At(b).rate
    && s.clock >= start.clock
    && held + spent == start.levels.At(b).Held(start.clock)
                       + Gain(s.levels.At(b).rate, s.clock - start.clock)
    && s.clock - start.clock == WaitedDone(s, b) - WaitedDone(start, b) + InFlight(s, b)
    && HolderOnSchedule(s, b, s.clock > start.clock)
  }

  /** What the current lock holder has waited so far. */
  function InFlight(s: State, b: Bucket): real {
    if s.holder.At(b).Some? && s.holder.At(b).value < |s.procs| then
      match s.procs[s.holder.At(b).value].at
      case Checking(w) => w
      case Consuming(w) => w
      case Sleeping(d, u, w) => d - (u - s.clock)
      case _ => 0.0
    else 0.0
  }

  predicate HolderOnSchedule(s: State, b: Bucket, late: bool) {
    var held := s.levels.At(b).Held(s.clock);
    match s.holder.At(b)
    case None => late ==> held == 0.0
    case Some(i) =>
      i < |s.procs| &&
      match s.procs[i].at
      case Checking(w) => if w > 0.0 then held == s.Cost(i) else late ==> held == 0.0
      case Consuming(w) => if w > 0.0 then held == s.Cost(i) else !late
      case Sleeping(d, u, w) =>
        u >= s.clock && held + Gain(s.levels.At(b).rate, u - s.clock) == s.Cost(i)
      case _ => false
  }

  lemma StartsOnSchedule(s: State, b: Bucket)
    requires Safe(s) && Prompt(s) && s.holder.At(b).None?
    ensures OnSchedule(s, s, b, 0.0)
  {
    GainLaws(s.levels.At(b).rate, 0.0, 0.0);
    hide Gain;
  }

  lemma TickOnSchedule(start: State, s: State, dt: real, b: Bucket, spent: real)
    requires Safe(s) && Prompt(s) && OnSchedule(start, s, b, spent)
    requires Enabled(s, Tick(dt)) && Eager(s, Tick(dt), b)
    ensures OnSchedule(start, Apply(s, Tick(dt)), b, spent)
  {
    hide Gain, Level.WaitTime, Total;
    if dt > 0.0 {
      var i := s.holder.At(b).value;
      var l, u, rate := s.levels.At(b), s.procs[i].at.until, s.levels.At(b).rate;
      assert HolderIsCritical(s, b) && AcquirerSafe(s, i) && AcquirerPrompt(s, i);
      HeldGrowth(l, s.clock, s.clock + dt);
      GainLaws(rate, dt, u - s.clock - dt);
      GainLaws(rate, 0.0, u - s.clock - dt);
      GainLaws(rate, s.clock - start.clock, dt);
      assert dt + (u - s.clock - dt) == u - s.clock;
      assert (s.clock - start.clock) + dt == s.clock + dt - start.clock;
      assert u - (s.clock + dt) == u - s.clock - dt;
    }
  }

  lemma PollOnSchedule(start: State, s: State, b': Bucket, now: real, b: Bucket, spent: real)
    requires Safe(s) && Prompt(s) && OnSchedule(start, s, b, spent)
    requires now <= s.clock
    ensures OnSchedule(start, Apply(s, Observe(b', now)), b, spent)
  {
    hide Gain, Level.WaitTime, Total;
    RefillTwice(s.levels.At(b'), now, s.clock);
    RefillSound(s.levels.At(b'), now);
    hide Level.Refill;
  }

  lemma CheckOnSchedule(start: State, s: State, i: nat, b: Bucket, spent: real)
    requires Safe(s) && Prompt(s) && OnSchedule(start, s, b, spent)
    requires Enabled(s, Check(i)) && s.procs[i].bucket == b
    ensures OnSchedule(start, Apply(s, Check(i)), b, spent)
  {
    var l, c := s.levels.At(b), s.Cost(i);
    assert AcquirerSafe(s, i) && AcquirerPrompt(s, i);
    WaitTimeBrings(l, c, s.clock);
    RefillTwice(l, s.clock, s.clock);
    RefillSound(l, s.clock);
    StepTotals(s, Check(i), b);
    hide Gain, Level.WaitTime, Level.Refill, Total;
  }

  lemma ConsumeOnSchedule(start: State, s: State, i: nat, b: Bucket, spent: real)
    requires Safe(s) && Prompt(s) && OnSchedule(start, s, b, spent)
    requires Enabled(s, Consume(i)) && s.procs[i].bucket == b
    ensures OnSchedule(start, Apply(s, Consume(i)), b, spent + s.Cost(i))
  {
    var l, c := s.levels.At(b), s.Cost(i);
    assert AcquirerSafe(s, i) && AcquirerPrompt(s, i);
    RefillSound(l, s.clock);
    assert l.Consume(c, s.clock).Held(s.clock) == l.Held(s.clock) - c;
    StepTotals(s, Consume(i), b);
    hide Gain, Level.WaitTime, Level.Refill, Total;
  }

  /** A step that leaves the bucket, its lock and its lock holder alone. */
  lemma FrameOnSchedule(start: State, s: State, t: State, b: Bucket, spent: real)
    requires Safe(s) && OnSchedule(start, s, b, spent)
    requires t.clock == s.clock && WaitedDone(t, b) == WaitedDone(s, b)
    requires t.levels.At(b) == s.levels.At(b) && t.holder.At(b) == s.holder.At(b)
    requires |t.procs| == |s.procs|
    requires var h := s.holder.At(b);
             h.Some? && h.value < |s.procs| ==> t.procs[h.value] == s.procs[h.value]
    ensures OnSchedule(start, t, b, spent)
  {
    hide Gain, Level.Refill, WaitedDone;
    assert HolderIsCritical(s, b);
  }

  lemma BystanderOnSchedule(start: State, s: State, e: Event, b: Bucket, spent: real)
    requires Safe(s) && OnSchedule(start, s, b, spent)
    requires Enabled(s, e) && e.ByAcquirer()
    requires s.procs[e.i].bucket != b || e.Call?
    ensures OnSchedule(start, Apply(s, e), b, spent)
  {
    hide Gain, Level.WaitTime, Level.Refill, WaitedDone, OnSchedule;
    assert AcquirerSafe(s, e.i) && HolderIsCritical(s, b);
    StepTotals(s, e, b);
    FrameOnSchedule(start, s, Apply(s, e), b, spent);
  }

  lemma LockOnSchedule(start: State, s: State, i: nat, b: Bucket, spent: real)
    requires Safe(s) && OnSchedule(start, s, b, spent)
    requires Enabled(s, Lock(i)) && s.procs[i].bucket == b
    ensures OnSchedule(start, Apply(s, Lock(i)), b, spent)
  {
    hide Gain, Level.WaitTime, Level.Refill, WaitedDone;
    StepTotals(s, Lock(i), b);
  }

  lemma WakeOnSchedule(start: State, s: State, i: nat, b: Bucket, spent: real)
    requires Safe(s) && Prompt(s) && OnSchedule(start, s, b, spent)
    requires Enabled(s, Wake(i)) && s.procs[i].bucket == b
    ensures OnSchedule(start, Apply(s, Wake(i)), b, spent)
  {
    hide Gain, Level.WaitTime, Level.Refill, WaitedDone;
    assert AcquirerSafe(s, i) && AcquirerPrompt(s, i);
    StepTotals(s, Wake(i), b);
    assert s.procs[i].at.until - s.clock == 0.0;
    GainLaws(s.levels.At(b).rate, 0.0, 0.0);
  }

  lemma StepOnSchedule(start: State, s: State, e: Event, b: Bucket, spent: real)
    requires Safe(s) && Prompt(s) && OnSchedule(start, s, b, spent)
    requires Enabled(s, e) && Eager(s, e, b)
    ensures OnSchedule(start, Apply(s, e), b, spent + Taken(s, e, b))
  {
    hide OnSchedule, Apply;
    if e.Tick? {
      TickOnSchedule(start, s, e.dt, b, spent);
    } else if e.Observe? {
      PollOnSchedule(start, s, e.b, e.now, b, spent);
    } else if e.Check? && s.procs[e.i].bucket == b {
      CheckOnSchedule(start, s, e.i, b, spent);
    } else if e.Consume? && s.procs[e.i].bucket == b {
      ConsumeOnSchedule(start, s, e.i, b, spent);
    } else if e.Lock? && s.procs[e.i].bucket == b {
      LockOnSchedule(start, s, e.i, b, spent);
    } else if e.Wake? && s.procs[e.i].bucket == b {
      WakeOnSchedule(start, s, e.i, b, spent);
    } else {
      BystanderOnSchedule(start, s, e, b, spent);
    }
  }

  lemma {:induction false} EagerRunOnSchedule(start: State, s: State, es: seq<Event>, b: Bucket, spent: real)
    requires Safe(s) && Prompt(s) && OnSchedule(start, s, b, spent)
    requires Runs(s, es) && RunsEagerly(s, es, b)
    ensures Safe(Exec(s, es)) && Prompt(Exec(s, es))
    ensures OnSchedule(start, Exec(s, es), b, spent + Consumed(s, es, b))
    decreases |es|
  {
    hide OnSchedule, Gain, Level.WaitTime;
    if es == [] {
    } else {
      StepIsSafe(s, es[0]);
      StepIsPrompt(s, es[0]);
      StepOnSchedule(start, s, es[0], b, spent);
      EagerRunOnSchedule(start, Apply(s, es[0]), es[1..], b, spent + Taken(s, es[0], b));
    }
  }

  /** Exact completion. With ideal sleeps, whichever calls a run serves from a free lock to a free
      lock, in whatever order and however many, it finishes at exactly the instant their total
      cost dictates, and the waiting times they return add up to exactly the time that passed. */
  lemma EagerRunFinishesExactly(s: State, es: seq<Event>, b: Bucket)
    requires Safe(s) && Prompt(s) && s.holder.At(b).None?
    requires Runs(s, es) && RunsEagerly(s, es, b) && Exec(s, es).holder.At(b).None?
    ensures s.levels.At(b).rate > 0.0
    ensures var t := Exec(s, es);
            && t.clock == FinishTime(s.clock, s.levels.At(b).Held(s.clock),
                                     CostDone(t, b) - CostDone(s, b), s.levels.At(b).rate)
            && WaitedDone(t, b) - WaitedDone(s, b) == t.clock - s.clock
  {
    hide Gain, Level.WaitTime, Level.Refill, Total;
    var t := Exec(s, es);
    StartsOnSchedule(s, b);
    EagerRunOnSchedule(s, s, es, b, 0.0);
    ConsumedIsCostDone(s, es, b);
    FinishTimeFromGain(s.clock, s.levels.At(b).Held(s.clock), Consumed(s, es, b),
                       s.levels.At(b).rate, t.clock - s.clock);
    if t.clock == s.clock {
      RefillSound(t.levels.At(b), t.clock);
      GainLaws(s.levels.At(b).rate, 0.0, 0.0);
      AlreadyPaid(s.clock, s.levels.At(b).Held(s.clock), Consumed(s, es, b), s.levels.At(b).rate);
    }
  }

  lemma AlreadyPaid(start: real, held: real, cost: real, rate: real)
    requires rate > 0.0 && cost <= held
    ensures FinishTime(start, held, cost, rate) == start
  {
    DivTimes(held - cost, rate);
    assert (cost - held) / rate * rate == cost - held;
    DivUnique(cost - held, rate, -((held - cost) / rate));
  }

  // ---- a whole queue -----------------------------------------------------------------------

  function CostIfPending(b: Bucket, capacity: real): Acquirer -> real {
    (p: Acquirer) =>
      if p.bucket == b && !p.at.Finished() && 0 < p.cost && p.cost as real <= capacity then p.cost as real else 0.0
  }

  /** The cost of every call on bucket `b` that has not returned and is not one to be rejected. */
  function CostPending(s: State, b: Bucket): real {
    Total(s.procs, CostIfPending(b, s.levels.At(b).capacity))
  }

  lemma StepPending(s: State, e: Event, b: Bucket)
    requires Safe(s) && Enabled(s, e) && Eager(s, e, b)
    ensures CostPending(Apply(s, e), b) + Taken(s, e, b) == CostPending(s, b)
  {
    StepKeepsSetup(s, e);
    assert Apply(s, e).levels.At(b).capacity == s.levels.At(b).capacity;
    if e.ByAcquirer() {
      assert AcquirerSafe(s, e.i);
      TotalUpdate(s.procs, e.i, Apply(s, e).procs[e.i], CostIfPending(b, s.levels.At(b).capacity));
    }
    hide Level.Refill, Level.WaitTime, Total;
  }

  lemma {:induction false} PendingIsConsumed(s: State, es: seq<Event>, b: Bucket)
    requires Safe(s) && Runs(s, es) && RunsEagerly(s, es, b)
    ensures CostPending(Exec(s, es), b) + Consumed(s, es, b) == CostPending(s, b)
    decreases |es|
  {
    hide Gain, Level.WaitTime, CostPending;
    if es == [] {
    } else {
      StepIsSafe(s, es[0]);
      StepPending(s, es[0], b);
      PendingIsConsumed(Apply(s, es[0]), es[1..], b);
    }
  }

  lemma {:induction false} NothingPending(procs: seq<Acquirer>, b: Bucket, capacity: real)
    requires forall i :: 0 <= i < |procs| && procs[i].bucket == b ==> procs[i].at.Finished()
    ensures Total(procs, CostIfPending(b, capacity)) == 0.0
    decreases |procs|
  {
    if procs == [] {
    } else {
      NothingPending(procs[1..], b, capacity);
    }
  }

  /** A queue drains exactly on time. Whatever calls are outstanding on a bucket whose lock is free,
      however many and of whatever costs, every run with ideal sleeps that finishes them finishes
      at start + max(0, (sum of their costs - tokens held) / rate), and the waiting times they
      return add up to exactly that delay. */
  lemma QueueDrainsExactly(s: State, es: seq<Event>, b: Bucket)
    requires Safe(s) && Prompt(s) && s.holder.At(b).None?
    requires Runs(s, es) && RunsEagerly(s, es, b) && AllFinished(Exec(s, es), b)
    ensures s.levels.At(b).rate > 0.0
    ensures var t := Exec(s, es);
            var due := FinishTime(s.clock, s.levels.At(b).Held(s.clock), CostPending(s, b), s.levels.At(b).rate);
            && t.clock == due
            && WaitedDone(t, b) - WaitedDone(s, b) == due - s.clock
            && CostDone(t, b) - CostDone(s, b) == CostPending(s, b)
  {
    hide Gain, Level.WaitTime, Level.Refill, Total, FinishTime;
    var t := Exec(s, es);
    RunIsSafe(s, es);
    assert HolderIsCritical(t, b);
    assert t.holder.At(b).None?;
    PendingIsConsumed(s, es, b);
    NothingPending(t.procs, b, t.levels.At(b).capacity);
    ConsumedIsCostDone(s, es, b);
    EagerRunFinishesExactly(s, es, b);
  }

  // ---- nobody is stuck ---------------------------------------------------------------------

  predicate AllFinished(s: State, b: Bucket) {
    forall i :: 0 <= i < |s.procs| && s.procs[i].bucket == b ==> s.procs[i].at.Finished()
  }

  /** While anyone on a bucket is unfinished, either somebody on it can move at once, or its lock
      holder can as soon as it is due. */
  lemma NobodyIsStuck(s: State, b: Bucket, i: nat) returns (dt: real, e: Event)
    requires Safe(s)
    requires i < |s.procs| && s.procs[i].bucket == b && !s.procs[i].at.Finished()
    ensures Enabled(s, Tick(dt)) && Eager(s, Tick(dt), b)
    ensures e.ByAcquirer() && !e.Cancel? && e.i < |s.procs| && s.procs[e.i].bucket == b
    ensures Enabled(Apply(s, Tick(dt)), e)
  {
    hide Gain, Level.WaitTime, Level.Refill;
    dt := 0.0;
    assert HolderIsCritical(s, b) && AcquirerSafe(s, i);
    if s.procs[i].at.Start? {
      e := Call(i);
    } else if s.holder.At(b).None? {
      e := Lock(i);
    } else {
      var h := s.holder.At(b).value;
      if s.procs[h].at.Checking? {
        e := Check(h);
      } else if s.procs[h].at.Consuming? {
        e := Consume(h);
      } else {
        dt := Max(0.0, s.procs[h].at.until - s.clock);
        e := Wake(h);
      }
    }
  }

  lemma {:induction false} TotalNonNegative(procs: seq<Acquirer>, b: Bucket)
    ensures Total(procs, RankIn(b)) >= 0.0
    decreases |procs|
  {
    if procs == [] {
    } else {
      TotalNonNegative(procs[1..], b);
    }
  }

  /** With on-time observers so far, ideal sleeps alone drive the bucket to where every call on it
      has returned, without cancelling anyone: the runs QueueDrainsExactly speaks of exist. */
  lemma {:induction false} EagerFinishExists(s: State, b: Bucket) returns (es: seq<Event>)
    requires Safe(s) && Prompt(s)
    ensures Runs(s, es) && RunsEagerly(s, es, b) && AllFinished(Exec(s, es), b)
    ensures Exec(s, es).holder.At(b).None?
    decreases Total(s.procs, RankIn(b)).Floor
  {
    hide Gain, Level.WaitTime, Level.Refill;
    if AllFinished(s, b) {
      es := [];
      assert HolderIsCritical(s, b);
    } else {
      var i :| 0 <= i < |s.procs| && s.procs[i].bucket == b && !s.procs[i].at.Finished();
      var dt, e := NobodyIsStuck(s, b, i);
      var m := Apply(s, Tick(dt));
      StepIsSafe(s, Tick(dt));
      StepIsPrompt(s, Tick(dt));
      StepIsSafe(m, e);
      StepIsPrompt(m, e);
      StepLowersRank(m, e, e.i);
      var t := Apply(m, e);
      TotalUpdate(m.procs, e.i, t.procs[e.i], RankIn(b));
      TotalNonNegative(t.procs, b);
      var rest := EagerFinishExists(t, b);
      es := [Tick(dt), e] + rest;
      assert es[1..] == [e] + rest && es[1..][1..] == rest;
    }
  }

  // ---- from any safe state -----------------------------------------------------------------

  /** Steps left on a schedule that lets the bucket fill up before every step. */
  function PatientRank(at: Progress): nat {
    match at
    case Start => 6
    case Queued => 5
    case Sleeping(_, _, _) => 4
    case Checking(_) => 3
    case Consuming(_) => 2
    case _ => 0
  }

  function PatientRankIn(b: Bucket): Acquirer -> real {
    (p: Acquirer) => if p.bucket == b then PatientRank(p.at) as real else 0.0
  }

  lemma {:induction false} PatientRankNonNegative(procs: seq<Acquirer>, b: Bucket)
    ensures Total(procs, PatientRankIn(b)) >= 0.0
    decreases |procs|
  {
    if procs == [] {
    } else {
      PatientRankNonNegative(procs[1..], b);
    }
  }

  /** Long enough from the latest instant a bucket knows of, it is full. */
  lemma FullInTheEnd(l: Level, horizon: real, later: real)
    requires l.Sound() && l.updated <= horizon && later >= horizon + l.capacity / l.rate
    ensures l.Held(later) == l.capacity && later >= horizon
  {
    DivTimes(l.capacity, l.rate);
    assert Gain(l.rate, l.capacity / l.rate) == l.capacity;
    GainLaws(l.rate, l.capacity / l.rate, later - horizon);
    HeldGrowth(l, horizon, later);
    RefillSound(l, horizon);
    hide Gain;
  }

  /** Some call on the bucket gets one step further after some delay. */
  lemma PatientStep(s: State, b: Bucket, i: nat) returns (dt: real, e: Event)
    requires Safe(s)
    requires i < |s.procs| && s.procs[i].bucket == b && !s.procs[i].at.Finished()
    ensures Enabled(s, Tick(dt))
    ensures var m := Apply(s, Tick(dt));
            && Enabled(m, e) && e.ByAcquirer() && !e.Cancel? && m.procs[e.i].bucket == b
            && PatientRank(Apply(m, e).procs[e.i].at) < PatientRank(m.procs[e.i].at)
  {
    var l := s.levels.At(b);
    DivTimes(l.capacity, l.rate);
    var full := s.Horizon(b) + l.capacity / l.rate;
    assert HolderIsCritical(s, b) && AcquirerSafe(s, i);
    dt := full - s.clock;
    if s.procs[i].at.Start? {
      e := Call(i);
    } else if s.holder.At(b).None? {
      e := Lock(i);
    } else {
      var h := s.holder.At(b).value;
      if s.procs[h].at.Checking? {
        e := Check(h);
        FullInTheEnd(l, s.Horizon(b), s.clock + dt);
        assert AcquirerSafe(s, h);
        WaitTimeBrings(l, s.Cost(h), s.clock + dt);
      } else if s.procs[h].at.Consuming? {
        e := Consume(h);
      } else {
        dt := Max(dt, s.procs[h].at.until - s.clock);
        e := Wake(h);
      }
    }
    hide Gain, Level.WaitTime, Level.Refill;
  }

  /** Nobody waits for ever. From every state a run can reach, whatever the observers did to reach
      it, some schedule without a single cancellation lets every call on the bucket return. */
  lemma {:induction false} EveryoneCanFinish(s: State, b: Bucket) returns (es: seq<Event>)
    requires Safe(s)
    ensures Runs(s, es) && AllFinished(Exec(s, es), b)
    ensures forall e :: e in es ==> !e.Observe? && !e.Cancel?
    decreases Total(s.procs, PatientRankIn(b)).Floor
  {
    hide Gain, Level.WaitTime, Level.Refill;
    if AllFinished(s, b) {
      es := [];
    } else {
      var i :| 0 <= i < |s.procs| && s.procs[i].bucket == b && !s.procs[i].at.Finished();
      var dt, e := PatientStep(s, b, i);
      var m := Apply(s, Tick(dt));
      StepIsSafe(s, Tick(dt));
      StepIsSafe(m, e);
      var t := Apply(m, e);
      TotalUpdate(m.procs, e.i, t.procs[e.i], PatientRankIn(b));
      PatientRankNonNegative(t.procs, b);
      var rest := EveryoneCanFinish(t, b);
      es := [Tick(dt), e] + rest;
      assert es[1..] == [e] + rest && es[1..][1..] == rest;
    }
  }
}
