/** Observers that run ahead of the clock: exactly how far the limiter's promises survive them. */
module LimiterLead {
  import opened Results
  import opened BucketSpec
  import opened RealArith
  import opened LimiterProtocol
  import opened LimiterBounds
  import opened LimiterCompletion

  /** The observer of this event, if it is one, reads a clock at most `lead` ahead. */
  predicate WithLead(s: State, e: Event, lead: real) {
    e.Observe? ==> e.now <= s.clock + lead
  }

  predicate RunsWithLead(s: State, es: seq<Event>, lead: real)
    requires Runs(s, es)
    decreases |es|
  {
    es == [] || (WithLead(s, es[0], lead) && RunsWithLead(Apply(s, es[0]), es[1..], lead))
  }

  lemma {:induction false} NoLeadIsOnTime(s: State, es: seq<Event>, lead: real)
    requires Runs(s, es) && lead <= 0.0 && RunsWithLead(s, es, lead)
    ensures RunsOnTime(s, es)
    decreases |es|
  {
    if es == [] {
    } else {
      NoLeadIsOnTime(Apply(s, es[0]), es[1..], lead);
    }
  }

  lemma {:induction false} NoObserverAnyLead(s: State, es: seq<Event>, lead: real)
    requires Runs(s, es) && forall e :: e in es ==> !e.Observe?
    ensures RunsWithLead(s, es, lead)
    decreases |es|
  {
    if es == [] {
    } else {
      assert es[0] in es;
      NoObserverAnyLead(Apply(s, es[0]), es[1..], lead);
    }
  }

  lemma {:induction false} LeadConcat(s: State, xs: seq<Event>, ys: seq<Event>, lead: real)
    requires Runs(s, xs) && Runs(s, xs + ys) && Runs(Exec(s, xs), ys)
    ensures RunsWithLead(s, xs + ys, lead) <==> RunsWithLead(s, xs, lead) && RunsWithLead(Exec(s, xs), ys, lead)
    decreases |xs|
  {
    if xs == [] {
      assert xs + ys == ys;
    } else {
      assert (xs + ys)[0] == xs[0] && (xs + ys)[1..] == xs[1..] + ys;
      LeadConcat(Apply(s, xs[0]), xs[1..], ys, lead);
    }
  }

  // ---- what a lead costs -------------------------------------------------------------------

  lemma {:induction false} LeadBoundsHorizon(s: State, es: seq<Event>, b: Bucket, lead: real)
    requires Safe(s) && Runs(s, es) && lead >= 0.0 && RunsWithLead(s, es, lead)
    requires s.levels.At(b).updated <= s.clock + lead
    ensures Exec(s, es).levels.At(b).updated <= Exec(s, es).clock + lead
    decreases |es|
  {
    hide Gain, Level.WaitTime;
    if es == [] {
    } else {
      StepIsSafe(s, es[0]);
      LeadBoundsHorizon(Apply(s, es[0]), es[1..], b, lead);
    }
  }

  /** Observers up to `lead` ahead of the clock let out at most what `lead` more seconds would. */
  lemma LeadWindowBound(s: State, es: seq<Event>, b: Bucket, lead: real)
    requires Safe(s) && Prompt(s) && Runs(s, es) && lead >= 0.0 && RunsWithLead(s, es, lead)
    ensures Consumed(s, es, b)
            <= s.levels.At(b).capacity + s.levels.At(b).rate * (Exec(s, es).clock - s.clock + lead)
  {
    hide *;
    var t, rate := Exec(s, es), s.levels.At(b).rate;
    PromptHorizon(s, b);
    LeadBoundsHorizon(s, es, b, lead);
    HorizonIs(t, b, lead);
    HorizonBound(s, es, b);
    SafeIsSound(s, b);
    SoundRate(s.levels.At(b));
    LongerAllowsMore(Consumed(s, es, b), s.levels.At(b).capacity, rate, t.Horizon(b) - s.clock,
                     t.clock - s.clock + lead);
  }

  lemma LongerAllowsMore(taken: real, capacity: real, rate: real, dt: real, longer: real)
    requires rate > 0.0 && dt <= longer && taken <= capacity + rate * dt
    ensures taken <= capacity + rate * longer
  {
    MulMonotone(dt, longer, rate);
  }

  lemma HorizonIs(s: State, b: Bucket, lead: real)
    requires lead >= 0.0 && s.levels.At(b).updated <= s.clock + lead
    ensures s.Horizon(b) <= s.clock + lead
  {}

  lemma SoundRate(l: Level)
    requires l.Sound()
    ensures l.rate > 0.0
  {}

  // ---- buckets nothing fits ----------------------------------------------------------------

  /** A bucket that holds less than one token serves nobody. */
  lemma {:induction false} TooSmallToServe(s: State, es: seq<Event>, b: Bucket, i: nat)
    requires Safe(s) && Runs(s, es) && s.levels.At(b).capacity < 1.0
    ensures Consumed(s, es, b) == 0.0 && Trace(s, es, b) == []
    ensures i < |s.procs| && s.procs[i].bucket == b ==> Sleeps(s, es, i) == 0
    decreases |es|
  {
    hide Gain, Level.WaitTime;
    if es == [] {
    } else {
      var e := es[0];
      StepIsSafe(s, e);
      StepKeepsSetup(s, e);
      assert Apply(s, e).levels.At(b).capacity == s.levels.At(b).capacity;
      if e.ByAcquirer() { assert AcquirerSafe(s, e.i); }
      TooSmallToServe(Apply(s, e), es[1..], b, i);
    }
  }

  // ---- a run that takes too much -----------------------------------------------------------

  /** Both buckets alike, nobody served yet. */
  function Fresh(l: Level, callers: seq<Acquirer>): State {
    State(0.0, PerBucket(l, l), PerBucket(None, None), callers)
  }

  function Turn(i: nat): seq<Event> {
    [Call(i), Lock(i), Check(i), Consume(i)]
  }

  /** For any rate, any capacity that holds a token and any lead there is a run, from a full
      bucket, that beats the clock's bound: take every whole token, wait until the lead alone
      covers the missing part of one more, poll that far ahead, and take it. */
  lemma AnyLeadBreaksClockBound(rate: real, capacity: real, b: Bucket, lead: real)
    returns (s: State, es: seq<Event>)
    requires rate > 0.0 && capacity >= 1.0 && lead > 0.0
    ensures Initial(s) && Safe(s) && Prompt(s) && s.levels.At(b) == Level(rate, capacity, capacity, s.clock)
    ensures Runs(s, es) && RunsWithLead(s, es, lead)
    ensures Consumed(s, es, b) > capacity + rate * (Exec(s, es).clock - s.clock)
  {
    hide Runs, RunsWithLead, Exec, Consumed, Turn, Safe, Prompt;
    var n := capacity.Floor;
    var left := capacity - n as real;
    var wait := Max(0.0, (1.0 - left) / rate - lead);
    DivTimes(1.0 - left, rate);
    PollBrings(rate, left, lead, wait);
    s := Fresh(Level(rate, capacity, capacity, 0.0), [Acquirer(b, n, Start), Acquirer(b, 1, Start)]);
    InitialIsSafe(s);
    var s1 := TakeWhole(s, b, n);
    var poll := [Tick(wait), Observe(b, wait + lead)];
    var s3, s4 := PollAndTake(s1, b, wait, lead);
    hide *;
    es := Turn(0) + (poll + Turn(1));
    Joined(s, Turn(0), poll, Turn(1), b, lead);
  }

  lemma TakeWhole(s: State, b: Bucket, n: int) returns (t: State)
    requires s.holder == PerBucket(None, None) && n >= 1
    requires s.procs == [Acquirer(b, n, Start), Acquirer(b, 1, Start)]
    requires var l := s.levels.At(b); l.Sound() && l.updated == s.clock && l.tokens == l.capacity >= n as real
    ensures Runs(s, Turn(0)) && t == Exec(s, Turn(0)) && Consumed(s, Turn(0), b) == n as real
    ensures t.clock == s.clock && t.holder.At(b).None?
    ensures |t.procs| == 2 && t.procs[1] == Acquirer(b, 1, Start)
    ensures t.levels.At(b) == s.levels.At(b).(tokens := s.levels.At(b).capacity - n as real)
    ensures forall e :: e in Turn(0) ==> !e.Observe?
  {
    hide Gain, Level.WaitTime;
    t := OneTurn(s, 0);
  }

  lemma PollAndTake(s: State, b: Bucket, wait: real, lead: real) returns (polled: State, t: State)
    requires s.holder.At(b).None? && |s.procs| == 2 && s.procs[1] == Acquirer(b, 1, Start)
    requires wait >= 0.0 && lead > 0.0
    requires var l := s.levels.At(b);
             l.Sound() && l.capacity >= 1.0 && l.updated == s.clock && l.tokens + Gain(l.rate, wait + lead) >= 1.0
    ensures var poll := [Tick(wait), Observe(b, s.clock + wait + lead)];
            && Runs(s, poll) && RunsWithLead(s, poll, lead) && polled == Exec(s, poll)
            && Consumed(s, poll, b) == 0.0
    ensures Runs(polled, Turn(1)) && t == Exec(polled, Turn(1)) && t.clock == s.clock + wait
    ensures Consumed(polled, Turn(1), b) == 1.0
    ensures forall e :: e in Turn(1) ==> !e.Observe?
  {
    var l, now := s.levels.At(b), s.clock + wait + lead;
    assert now - s.clock == wait + lead;
    RefillSound(l, now);
    hide Gain, Level.WaitTime;
    var s2 := Apply(s, Tick(wait));
    polled := Apply(s2, Observe(b, now));
    TwoEvents(s, Tick(wait), Observe(b, now), b, lead);
    t := OneTurn(polled, 1);
  }

  lemma TwoEvents(s: State, d: Event, e: Event, b: Bucket, lead: real)
    requires Enabled(s, d) && Enabled(Apply(s, d), e)
    ensures Runs(s, [d, e]) && Exec(s, [d, e]) == Apply(Apply(s, d), e)
    ensures Consumed(s, [d, e], b) == Taken(s, d, b) + Taken(Apply(s, d), e, b)
    ensures RunsWithLead(s, [d, e], lead) <==> WithLead(s, d, lead) && WithLead(Apply(s, d), e, lead)
  {
    hide Apply, Enabled, Taken;
    var t := Apply(s, d);
    Unroll(t, [e]);
    Unroll(s, [d, e]);
    UnrollLead(t, [e], lead);
    UnrollLead(s, [d, e], lead);
    assert [d, e][1..] == [e];
  }

  lemma UnrollLead(s: State, es: seq<Event>, lead: real)
    requires es != [] && Runs(s, es)
    ensures RunsWithLead(s, es, lead)
            <==> WithLead(s, es[0], lead) && RunsWithLead(Apply(s, es[0]), es[1..], lead)
  {}

  lemma PollBrings(rate: real, left: real, lead: real, wait: real)
    requires rate > 0.0 && 0.0 <= left < 1.0 && lead > 0.0
    requires wait == Max(0.0, (1.0 - left) / rate - lead) && (1.0 - left) / rate * rate == 1.0 - left
    ensures left + Gain(rate, wait + lead) >= 1.0
    ensures rate * wait < 1.0 - left
  {
    var need := (1.0 - left) / rate;
    assert Gain(rate, need) == 1.0 - left;
    GainLaws(rate, need, wait + lead);
    GainLaws(rate, wait, need);
    GainIsProduct(rate, wait);
    DivTimes(1.0 - left, rate);
    hide Gain;
  }

  lemma Joined(s: State, xs: seq<Event>, ys: seq<Event>, zs: seq<Event>, b: Bucket, lead: real)
    requires Runs(s, xs) && Runs(Exec(s, xs), ys) && Runs(Exec(Exec(s, xs), ys), zs)
    requires RunsWithLead(Exec(s, xs), ys, lead)
    requires forall e :: e in xs || e in zs ==> !e.Observe?
    ensures Runs(s, xs + (ys + zs)) && RunsWithLead(s, xs + (ys + zs), lead)
    ensures Exec(s, xs + (ys + zs)) == Exec(Exec(Exec(s, xs), ys), zs)
    ensures Consumed(s, xs + (ys + zs), b)
            == Consumed(s, xs, b) + Consumed(Exec(s, xs), ys, b) + Consumed(Exec(Exec(s, xs), ys), zs, b)
  {
    var t := Exec(s, xs);
    RunsConcat(t, ys, zs);
    RunsConcat(s, xs, ys + zs);
    LeadConcat(t, ys, zs, lead);
    LeadConcat(s, xs, ys + zs, lead);
    NoObserverAnyLead(s, xs, lead);
    NoObserverAnyLead(Exec(t, ys), zs, lead);
    hide *;
  }

  // ---- exactly when the promises hold ------------------------------------------------------

  /** `s` and `es` are a run, with observers at most `lead` ahead, from a state that was on time
      and in which bucket `b` has this budget. */
  ghost predicate LeadRun(rate: real, capacity: real, b: Bucket, lead: real, s: State, es: seq<Event>) {
    && Safe(s) && Prompt(s)
    && s.levels.At(b).rate == rate && s.levels.At(b).capacity == capacity
    && Runs(s, es) && RunsWithLead(s, es, lead)
  }

  /** The clock's bound holds of every run with observers up to `lead` ahead exactly when `lead`
      is not positive, or the bucket is too small to serve anyone. */
  lemma ClockBoundIff(rate: real, capacity: real, b: Bucket, lead: real)
    requires rate > 0.0 && capacity >= 0.0
    ensures (forall s, es :: LeadRun(rate, capacity, b, lead, s, es) ==>
               Consumed(s, es, b) <= capacity + rate * (Exec(s, es).clock - s.clock))
            <==> lead <= 0.0 || capacity < 1.0
  {
    hide Safe, Prompt, Runs, Exec, RunsWithLead, Consumed;
    if lead <= 0.0 || capacity < 1.0 {
      forall s, es | LeadRun(rate, capacity, b, lead, s, es)
        ensures Consumed(s, es, b) <= capacity + rate * (Exec(s, es).clock - s.clock)
      {
        ClockBoundWithoutLead(rate, capacity, b, lead, s, es);
      }
    } else {
      var s, es := AnyLeadBreaksClockBound(rate, capacity, b, lead);
      IsLeadRun(rate, capacity, b, lead, s, es);
    }
  }

  lemma ClockBoundWithoutLead(rate: real, capacity: real, b: Bucket, lead: real, s: State, es: seq<Event>)
    requires LeadRun(rate, capacity, b, lead, s, es) && capacity >= 0.0 && (lead <= 0.0 || capacity < 1.0)
    ensures Consumed(s, es, b) <= capacity + rate * (Exec(s, es).clock - s.clock)
  {
    hide Gain, Level.WaitTime, Exec, Consumed, Runs, RunsWithLead, RunsOnTime;
    var l, dt := s.levels.At(b), Exec(s, es).clock - s.clock;
    if lead <= 0.0 {
      NoLeadIsOnTime(s, es, lead);
      ClockWindowBound(s, es, b);
    } else {
      TooSmallToServe(s, es, b, 0);
      ClockMovesOn(s, es);
      SoundRate(l);
      MulPositive(l.rate, dt);
    }
    hide *;
    SameBound(Consumed(s, es, b), l.capacity, l.rate, capacity, rate, dt);
  }

  lemma SameBound(taken: real, c: real, r: real, c': real, r': real, dt: real)
    requires c == c' && r == r' && taken <= c + r * dt
    ensures taken <= c' + r' * dt
  {}

  lemma IsLeadRun(rate: real, capacity: real, b: Bucket, lead: real, s: State, es: seq<Event>)
    requires Safe(s) && Prompt(s) && Runs(s, es) && RunsWithLead(s, es, lead)
    requires s.levels.At(b).rate == rate && s.levels.At(b).capacity == capacity
    ensures LeadRun(rate, capacity, b, lead, s, es)
  {}

  lemma {:induction false} ClockMovesOn(s: State, es: seq<Event>)
    requires Runs(s, es)
    ensures Exec(s, es).clock >= s.clock
    decreases |es|
  {
    if es == [] {
    } else {
      ClockMovesOn(Apply(s, es[0]), es[1..]);
    }
  }

  /** What a server admits it can pay for. */
  lemma {:induction false} AdmittedIsPaidFor(s: State, es: seq<Event>, b: Bucket, server: Level)
    requires Safe(s) && Runs(s, es)
    requires server.Sound() && server.updated <= s.clock && Admits(server, Trace(s, es, b))
    ensures Consumed(s, es, b) <= server.Held(s.clock) + Gain(server.rate, Exec(s, es).clock - s.clock)
    decreases |es|
  {
    hide Gain, Level.WaitTime, Level.Refill;
    RefillSound(server, s.clock);
    if es == [] {
      GainLaws(server.rate, 0.0, 0.0);
    } else {
      var e, t := es[0], Apply(s, es[0]);
      StepIsSafe(s, e);
      if e.Consume? && s.procs[e.i].bucket == b {
        assert AcquirerSafe(s, e.i);
        assert Trace(s, es, b)[1..] == Trace(t, es[1..], b);
        ServerSpends(server, s.Cost(e.i), s.clock);
        AdmittedIsPaidFor(t, es[1..], b, server.Consume(s.Cost(e.i), s.clock));
      } else {
        assert Trace(s, es, b) == Trace(t, es[1..], b);
        ClockMovesOn(t, es[1..]);
        ServerWaits(server, s.clock, t.clock, Exec(s, es).clock);
        AdmittedIsPaidFor(t, es[1..], b, server);
      }
    }
  }

  lemma ServerSpends(server: Level, cost: real, now: real)
    requires server.Sound() && server.updated <= now && 0.0 <= cost <= server.Held(now)
    ensures var later := server.Consume(cost, now);
            later.Sound() && later.rate == server.rate && later.updated <= now
            && later.Held(now) == server.Held(now) - cost
  {
    RefillSound(server, now);
  }

  lemma ServerWaits(server: Level, t1: real, t2: real, end: real)
    requires server.Sound() && server.updated <= t1 <= t2 <= end
    ensures server.Held(t2) + Gain(server.rate, end - t2) <= server.Held(t1) + Gain(server.rate, end - t1)
  {
    HeldGrowth(server, t1, t2);
    GainLaws(server.rate, t2 - t1, end - t2);
    assert (t2 - t1) + (end - t2) == end - t1;
    hide Gain;
  }

  lemma FullServerPays(s: State, es: seq<Event>, b: Bucket, rate: real, capacity: real)
    requires Safe(s) && Runs(s, es) && rate > 0.0 && capacity >= 0.0
    requires Admits(Level(rate, capacity, capacity, s.clock), Trace(s, es, b))
    ensures Consumed(s, es, b) <= capacity + rate * (Exec(s, es).clock - s.clock)
  {
    AdmittedIsPaidFor(s, es, b, Level(rate, capacity, capacity, s.clock));
    GainIsProduct(rate, Exec(s, es).clock - s.clock);
    hide Gain, Exec, Consumed, Trace, Admits;
  }

  /** A server with the same budget that starts full refuses no run with observers up to `lead`
      ahead under exactly the same condition. */
  lemma ServerIff(rate: real, capacity: real, b: Bucket, lead: real)
    requires rate > 0.0 && capacity >= 0.0
    ensures (forall s, es :: LeadRun(rate, capacity, b, lead, s, es) ==>
               Admits(Level(rate, capacity, capacity, s.clock), Trace(s, es, b)))
            <==> lead <= 0.0 || capacity < 1.0
  {
    hide Safe, Prompt, Runs, Exec, RunsWithLead, RunsOnTime, Consumed, Trace;
    if lead <= 0.0 || capacity < 1.0 {
      forall s, es | LeadRun(rate, capacity, b, lead, s, es)
        ensures Admits(Level(rate, capacity, capacity, s.clock), Trace(s, es, b))
      {
        if lead <= 0.0 {
          NoLeadIsOnTime(s, es, lead);
          FullServerNeverRefuses(s, es, b, rate, capacity);
        } else {
          TooSmallToServe(s, es, b, 0);
        }
      }
    } else {
      var s, es := AnyLeadBreaksClockBound(rate, capacity, b, lead);
      IsLeadRun(rate, capacity, b, lead, s, es);
      if Admits(Level(rate, capacity, capacity, s.clock), Trace(s, es, b)) {
        FullServerPays(s, es, b, rate, capacity);
        assert false;
      }
    }
  }

  // ---- sleeping again ----------------------------------------------------------------------

  lemma UnrollSleeps(s: State, es: seq<Event>, i: nat)
    requires es != [] && Runs(s, es) && i < |s.procs| && |Apply(s, es[0]).procs| == |s.procs|
    ensures Sleeps(s, es, i)
            == (if es[0] == Check(i) && Apply(s, es[0]).procs[i].at.Sleeping? then 1 else 0)
               + Sleeps(Apply(s, es[0]), es[1..], i)
  {}

  /** Polled a moment ahead, a bucket short of a token makes its caller sleep, wake, find it still
      short, and sleep again. */
  lemma AnyLeadSleepsTwice(rate: real, capacity: real, b: Bucket, lead: real)
    returns (s: State, es: seq<Event>)
    requires rate > 0.0 && capacity >= 1.0 && lead > 0.0
    ensures Initial(s) && Safe(s) && Prompt(s) && |s.procs| == 1 && s.procs[0].bucket == b
    ensures s.levels.At(b).rate == rate && s.levels.At(b).capacity == capacity
    ensures Runs(s, es) && RunsWithLead(s, es, lead) && Sleeps(s, es, 0) == 2
  {
    var half := 0.5 / rate;
    DivTimes(0.5, rate);
    var ahead := if lead <= half then lead else half;
    var some := Gain(rate, ahead);
    assert Gain(rate, half) == 0.5;
    GainLaws(rate, ahead, half);
    GainLaws(rate, 0.0, ahead);
    s := Fresh(Level(rate, capacity, 0.0, 0.0), [Acquirer(b, 1, Start)]);
    hide Gain, Level.WaitTime;
    InitialIsSafe(s);
    var polled := Level(rate, capacity, some, ahead);
    var d := polled.WaitTime(1.0, 0.0);
    WaitTimeBrings(polled, 1.0, 0.0);
    TooShort(polled, 1.0, 0.0);
    var s1 := Apply(s, Observe(b, ahead));
    assert s1.levels.At(b) == polled;
    hide Level.Refill;
    es := SleepTwice(s1, d);
    es := [Observe(b, ahead)] + es;
    assert es[1..] == es[1..];
    Unroll(s, es);
    UnrollSleeps(s, es, 0);
    NoObserverAnyLead(s1, es[1..], lead);
  }

  lemma SleepTwice(s: State, d: real) returns (es: seq<Event>)
    requires |s.procs| == 1 && s.procs[0].at == Start && s.Fits(0) && s.holder.At(s.procs[0].bucket).None?
    requires s.LevelOf(0).Sound() && d > 0.0 && d == s.LevelOf(0).WaitTime(s.Cost(0), s.clock)
    requires s.LevelOf(0).Refill(s.clock) == s.LevelOf(0) && s.LevelOf(0).Held(s.clock + d) < s.Cost(0)
    ensures es == [Call(0), Lock(0), Check(0)] + [Tick(d), Wake(0), Check(0)]
    ensures Runs(s, es) && Sleeps(s, es, 0) == 2
  {
    var t := FallsAsleep(s);
    var u := WakesTooSoon(t, d);
    es := [Call(0), Lock(0), Check(0)] + [Tick(d), Wake(0), Check(0)];
    hide *;
    RunsConcat(s, [Call(0), Lock(0), Check(0)], [Tick(d), Wake(0), Check(0)]);
    SleepsConcat(s, [Call(0), Lock(0), Check(0)], [Tick(d), Wake(0), Check(0)], 0);
  }

  lemma {:induction false} SleepsConcat(s: State, xs: seq<Event>, ys: seq<Event>, i: nat)
    requires Runs(s, xs) && Runs(Exec(s, xs), ys) && Runs(s, xs + ys) && i < |s.procs|
    ensures |Exec(s, xs).procs| == |s.procs|
    ensures Sleeps(s, xs + ys, i) == Sleeps(s, xs, i) + Sleeps(Exec(s, xs), ys, i)
    decreases |xs|
  {
    if xs == [] {
      assert xs + ys == ys;
    } else {
      assert (xs + ys)[0] == xs[0] && (xs + ys)[1..] == xs[1..] + ys;
      StepKeepsSetup(s, xs[0]);
      SleepsConcat(Apply(s, xs[0]), xs[1..], ys, i);
    }
  }

  /** The only caller finds its bucket short and goes to sleep. */
  lemma FallsAsleep(s: State) returns (t: State)
    requires |s.procs| == 1 && s.procs[0].at == Start && s.Fits(0) && s.holder.At(s.procs[0].bucket).None?
    requires s.LevelOf(0).Sound() && s.LevelOf(0).WaitTime(s.Cost(0), s.clock) > 0.0
    requires s.LevelOf(0).Refill(s.clock) == s.LevelOf(0)
    ensures var es := [Call(0), Lock(0), Check(0)];
            Runs(s, es) && t == Exec(s, es) && Sleeps(s, es, 0) == 1
    ensures var d := s.LevelOf(0).WaitTime(s.Cost(0), s.clock);
            && |t.procs| == 1 && t.procs[0] == s.procs[0].(at := Sleeping(d, s.clock + d, 0.0))
            && t.clock == s.clock && t.LevelOf(0) == s.LevelOf(0)
  {
    hide Gain, Level.WaitTime, Level.Refill;
    var s1 := Apply(s, Call(0));
    var s2 := Apply(s1, Lock(0));
    t := Apply(s2, Check(0));
    hide Apply;
    Unroll(s2, [Check(0)]);
    Unroll(s1, [Lock(0), Check(0)]);
    Unroll(s, [Call(0), Lock(0), Check(0)]);
    UnrollSleeps(s2, [Check(0)], 0);
    UnrollSleeps(s1, [Lock(0), Check(0)], 0);
    UnrollSleeps(s, [Call(0), Lock(0), Check(0)], 0);
  }

  /** It wakes when its sleep is due, finds its cost still not there, and sleeps again. */
  lemma WakesTooSoon(s: State, d: real) returns (t: State)
    requires |s.procs| == 1 && s.procs[0].at == Sleeping(d, s.clock + d, 0.0) && d > 0.0
    requires s.LevelOf(0).Sound() && s.LevelOf(0).Held(s.clock + d) < s.Cost(0)
    ensures var es := [Tick(d), Wake(0), Check(0)];
            Runs(s, es) && t == Exec(s, es) && Sleeps(s, es, 0) == 1
  {
    WaitTimeBrings(s.LevelOf(0), s.Cost(0), s.clock + d);
    hide Gain, Level.WaitTime, Level.Refill;
    var s1 := Apply(s, Tick(d));
    var s2 := Apply(s1, Wake(0));
    t := Apply(s2, Check(0));
    assert t.procs[0].at.Sleeping?;
    hide Apply;
    Unroll(s2, [Check(0)]);
    Unroll(s1, [Wake(0), Check(0)]);
    Unroll(s, [Tick(d), Wake(0), Check(0)]);
    UnrollSleeps(s2, [Check(0)], 0);
    UnrollSleeps(s1, [Wake(0), Check(0)], 0);
    UnrollSleeps(s, [Tick(d), Wake(0), Check(0)], 0);
  }

  /** Every call sleeps at most once, in every run with observers up to `lead` ahead, under exactly
      that condition again. */
  lemma OneSleepIff(rate: real, capacity: real, b: Bucket, lead: real)
    requires rate > 0.0 && capacity >= 0.0
    ensures (forall s, es, i ::
               LeadRun(rate, capacity, b, lead, s, es) && 0 <= i < |s.procs| && s.procs[i].bucket == b ==>
                 Sleeps(s, es, i) <= 1)
            <==> lead <= 0.0 || capacity < 1.0
  {
    hide Gain, Level.WaitTime;
    if lead <= 0.0 || capacity < 1.0 {
      forall s, es, i | LeadRun(rate, capacity, b, lead, s, es) && 0 <= i < |s.procs| && s.procs[i].bucket == b
        ensures Sleeps(s, es, i) <= 1
      {
        if lead <= 0.0 {
          NoLeadIsOnTime(s, es, lead);
          AcquirerWorkIsBounded(s, es, i);
        } else {
          TooSmallToServe(s, es, b, i);
        }
      }
    } else {
      var s, es := AnyLeadSleepsTwice(rate, capacity, b, lead);
      assert LeadRun(rate, capacity, b, lead, s, es);
    }
  }
}
