/** What does not matter to an acquirer: traffic on the other bucket, and being watched. */
module LimiterIndependence {
  import opened BucketSpec
  import opened LimiterProtocol

  // ---- the other bucket --------------------------------------------------------------------

  /** The bucket each acquirer asks, which no step changes. */
  function Homes(s: State): seq<Bucket> {
    seq(|s.procs|, i requires 0 <= i < |s.procs| => s.procs[i].bucket)
  }

  predicate Concerns(homes: seq<Bucket>, e: Event, b: Bucket) {
    match e
    case Tick(_) => true
    case Observe(b', _) => b' == b
    case _ => e.i < |homes| && homes[e.i] == b
  }

  /** The run with every event on the other bucket left out. */
  function Only(homes: seq<Bucket>, es: seq<Event>, b: Bucket): seq<Event>
    decreases |es|
  {
    if es == [] then []
    else (if Concerns(homes, es[0], b) then [es[0]] else []) + Only(homes, es[1..], b)
  }

  /** Equal in everything that belongs to bucket `b`: its level, its lock, and the whole state,
      waiting times included, of everyone who asks it. */
  ghost predicate AgreeOn(s: State, t: State, b: Bucket) {
    && s.clock == t.clock
    && Homes(s) == Homes(t)
    && s.levels.At(b) == t.levels.At(b)
    && s.holder.At(b) == t.holder.At(b)
    && (forall i :: 0 <= i < |s.procs| && s.procs[i].bucket == b ==> s.procs[i] == t.procs[i])
  }

  lemma StepKeepsHomes(s: State, e: Event)
    requires Enabled(s, e)
    ensures Homes(Apply(s, e)) == Homes(s)
  {}

  lemma HomesAt(s: State, t: State, i: nat)
    requires Homes(s) == Homes(t)
    ensures |s.procs| == |t.procs|
    ensures i < |s.procs| ==> s.procs[i].bucket == Homes(s)[i] && t.procs[i].bucket == Homes(s)[i]
  {
    assert |Homes(s)| == |s.procs| && |Homes(t)| == |t.procs|;
    assert i < |s.procs| ==> Homes(t)[i] == t.procs[i].bucket;
  }

  lemma OtherStepAgrees(s: State, e: Event, b: Bucket)
    requires Enabled(s, e) && !Concerns(Homes(s), e, b)
    ensures AgreeOn(s, Apply(s, e), b)
  {
    hide Level.Refill, Level.WaitTime;
    StepKeepsHomes(s, e);
    if e.ByAcquirer() { HomesAt(s, s, e.i); }
  }

  lemma SameStepAgrees(s: State, t: State, e: Event, b: Bucket)
    requires Enabled(s, e) && Concerns(Homes(s), e, b) && AgreeOn(s, t, b)
    ensures Enabled(t, e) && AgreeOn(Apply(s, e), Apply(t, e), b)
  {
    hide Level.Refill, Level.WaitTime;
    if e.ByAcquirer() { HomesAt(s, t, e.i); }
    StepKeepsHomes(s, e);
    StepKeepsHomes(t, e);
    var s', t' := Apply(s, e), Apply(t, e);
    forall i | 0 <= i < |s'.procs| && s'.procs[i].bucket == b ensures s'.procs[i] == t'.procs[i] {
      HomesAt(s, t, i);
      HomesAt(s, s', i);
      assert s.procs[i] == t.procs[i];
    }
  }

  lemma AgreeTransitive(s: State, t: State, u: State, b: Bucket)
    requires AgreeOn(s, t, b) && AgreeOn(t, u, b)
    ensures AgreeOn(s, u, b) && AgreeOn(t, s, b)
  {
    forall i | 0 <= i < |s.procs| && s.procs[i].bucket == b ensures s.procs[i] == u.procs[i] {
      HomesAt(s, t, i);
      assert s.procs[i] == t.procs[i];
    }
    forall i | 0 <= i < |t.procs| && t.procs[i].bucket == b ensures t.procs[i] == s.procs[i] {
      HomesAt(s, t, i);
    }
  }

  /** Reads cannot delay a cancel. Leave every event on the other bucket out of a run and what is
      left is a run, at whose end bucket `b`, its lock and all its acquirers are exactly where
      they were: same admissions, same instants, same waiting times. */
  lemma {:induction false} OtherBucketIsInvisible(s: State, t: State, es: seq<Event>, b: Bucket)
    requires Runs(s, es) && AgreeOn(s, t, b)
    ensures Runs(t, Only(Homes(s), es, b))
    ensures AgreeOn(Exec(s, es), Exec(t, Only(Homes(s), es, b)), b)
    decreases |es|
  {
    if es == [] {
    } else {
      var e, s' := es[0], Apply(s, es[0]);
      StepKeepsHomes(s, e);
      if Concerns(Homes(s), e, b) {
        SameStepAgrees(s, t, e, b);
        OtherBucketIsInvisible(s', Apply(t, e), es[1..], b);
        assert Only(Homes(s), es, b)[1..] == Only(Homes(s'), es[1..], b);
      } else {
        OtherStepAgrees(s, e, b);
        assert AgreeOn(s, s, b);
        AgreeTransitive(s, s', s', b);
        AgreeTransitive(s', s, t, b);
        OtherBucketIsInvisible(s', t, es[1..], b);
        assert Only(Homes(s), es, b) == Only(Homes(s'), es[1..], b);
      }
    }
  }

  // ---- the observers -----------------------------------------------------------------------

  /** The run with every poll left out. */
  function Unpolled(es: seq<Event>): seq<Event>
    decreases |es|
  {
    if es == [] then []
    else (if es[0].Observe? then [] else [es[0]]) + Unpolled(es[1..])
  }

  /** Equal but for how recently each bucket was refilled. */
  predicate Alike(s: State, t: State) {
    && s.clock == t.clock
    && s.holder == t.holder
    && s.procs == t.procs
    && LevelsAlike(s.levels.read, t.levels.read, s.clock)
    && LevelsAlike(s.levels.write, t.levels.write, s.clock)
  }

  predicate LevelsAlike(l: Level, m: Level, clock: real) {
    && l.rate == m.rate && l.capacity == m.capacity
    && l.Refill(clock) == m.Refill(clock)
  }

  lemma AlikeLater(l: Level, m: Level, t1: real, t2: real)
    requires l.Sound() && m.Sound() && t1 <= t2
    requires LevelsAlike(l, m, t1)
    ensures LevelsAlike(l, m, t2)
  {
    RefillTwice(l, t1, t2);
    RefillTwice(m, t1, t2);
    hide Level.Refill;
  }

  lemma SameStepAlike(s: State, t: State, e: Event)
    requires Safe(s) && Safe(t) && Alike(s, t)
    requires Enabled(s, e) && !e.Observe?
    ensures Enabled(t, e) && Alike(Apply(s, e), Apply(t, e))
  {
    match e
    case Tick(dt) =>
      AlikeLater(s.levels.read, t.levels.read, s.clock, s.clock + dt);
      AlikeLater(s.levels.write, t.levels.write, s.clock, s.clock + dt);
      hide Level.Refill, Level.WaitTime;
    case Check(i) =>
      assert LevelsAlike(s.LevelOf(i), t.LevelOf(i), s.clock);
      assert s.LevelOf(i).WaitTime(s.Cost(i), s.clock) == t.LevelOf(i).WaitTime(t.Cost(i), t.clock);
      hide Level.Refill, Level.WaitTime;
    case Consume(i) =>
      assert LevelsAlike(s.LevelOf(i), t.LevelOf(i), s.clock);
      hide Level.Refill, Level.WaitTime;
    case _ =>
      hide Level.Refill, Level.WaitTime;
  }

  /** Watching changes nothing. Leave every poll out of a run and what is left is a run with the
      same clock, the same locks and every acquirer where it was, waiting time included; the
      buckets differ at most in when they were last refilled. */
  lemma {:induction false} PollingIsInvisible(s: State, t: State, es: seq<Event>)
    requires Safe(s) && Prompt(s) && Safe(t) && Prompt(t) && Alike(s, t)
    requires Runs(s, es) && RunsOnTime(s, es)
    ensures Runs(t, Unpolled(es)) && Alike(Exec(s, es), Exec(t, Unpolled(es)))
    decreases |es|
  {
    hide Level.Refill, Level.WaitTime;
    if es == [] {
    } else {
      var e, s' := es[0], Apply(s, es[0]);
      StepIsSafe(s, e);
      StepIsPrompt(s, e);
      if e.Observe? {
        RefillTwice(s.levels.At(e.b), e.now, s.clock);
        RefillSound(s.levels.At(e.b), e.now);
        assert Unpolled(es) == Unpolled(es[1..]);
        PollingIsInvisible(s', t, es[1..]);
      } else {
        SameStepAlike(s, t, e);
        StepIsSafe(t, e);
        StepIsPrompt(t, e);
        assert Unpolled(es)[1..] == Unpolled(es[1..]);
        PollingIsInvisible(s', Apply(t, e), es[1..]);
      }
    }
  }
}
