/** RateLimiter.acquire as a timed state machine shared by any number of coroutines.

    One acquirer is one call of `acquire`. Its check and its consume are separate steps, so the
    scheduler may run anything between them that the per-bucket lock does not exclude. The
    unlocked observers `available` and `wait_time` refill a bucket at any moment, at a `now`
    of their own choosing. A run is a sequence of events, each enabled where it occurs. */
module LimiterProtocol {
  import opened Results
  import opened BucketSpec

  datatype Bucket = Read | Write

  /** One thing per bucket: the source's dictionaries keyed by Bucket. */
  datatype PerBucket<T> = PerBucket(read: T, write: T) {
    function At(b: Bucket): T {
      if b == Read then read else write
    }

    function With(b: Bucket, x: T): PerBucket<T> {
      if b == Read then this.(read := x) else this.(write := x)
    }
  }

  /** Where one call of `acquire` stands; `waited` is its local accumulator. */
  datatype Progress =
    | Start
    | Queued                                  // awaiting the bucket's lock
    | Checking(waited: real)                  // holds the lock, about to ask wait_time
    | Sleeping(delay: real, until: real, waited: real)
    | Consuming(waited: real)                 // saw a zero delay, has not consumed yet
    | Done(waited: real)
    | Rejected                                // _check_cost raised
    | Cancelled                               // cancelled at one of its two awaits
  {
    predicate Critical() {
      Checking? || Sleeping? || Consuming?
    }

    predicate Finished() {
      Done? || Rejected? || Cancelled?
    }
  }

  datatype Acquirer = Acquirer(bucket: Bucket, cost: int, at: Progress)

  datatype State = State(
    clock: real,
    levels: PerBucket<Level>,
    holder: PerBucket<Option<nat>>,
    procs: seq<Acquirer>)
  {
    function LevelOf(i: nat): Level
      requires i < |procs|
    {
      levels.At(procs[i].bucket)
    }

    function Cost(i: nat): real
      requires i < |procs|
    {
      procs[i].cost as real
    }

    function Move(i: nat, p: Progress): State
      requires i < |procs|
    {
      this.(procs := procs[i := procs[i].(at := p)])
    }

    function Fits(i: nat): bool
      requires i < |procs|
    {
      0 < procs[i].cost && Cost(i) <= LevelOf(i).capacity
    }

    /** The latest instant bucket `b` knows of: the clock, or a later `now` it was polled at. */
    function Horizon(b: Bucket): real {
      Max(clock, levels.At(b).updated)
    }
  }

  datatype Event =
    | Tick(dt: real)
    | Observe(b: Bucket, now: real)
    | Call(i: nat)
    | Lock(i: nat)
    | Check(i: nat)
    | Wake(i: nat)
    | Consume(i: nat)
    | Cancel(i: nat)
  {
    predicate ByAcquirer() {
      !Tick? && !Observe?
    }
  }

  predicate Enabled(s: State, e: Event) {
    match e
    case Tick(dt) => dt >= 0.0
    case Observe(_, _) => true
    case Call(i) => i < |s.procs| && s.procs[i].at.Start?
    case Lock(i) => i < |s.procs| && s.procs[i].at.Queued? && s.holder.At(s.procs[i].bucket).None?
    case Check(i) => i < |s.procs| && s.procs[i].at.Checking? && s.LevelOf(i).Sound()
    case Wake(i) => i < |s.procs| && s.procs[i].at.Sleeping? && s.clock >= s.procs[i].at.until
    case Consume(i) => i < |s.procs| && s.procs[i].at.Consuming?
    case Cancel(i) => i < |s.procs| && (s.procs[i].at.Queued? || s.procs[i].at.Sleeping?)
  }

  function Apply(s: State, e: Event): State
    requires Enabled(s, e)
  {
    match e
    case Tick(dt) => s.(clock := s.clock + dt)
    case Observe(b, now) => s.(levels := s.levels.With(b, s.levels.At(b).Refill(now)))
    case Call(i) => s.Move(i, if s.Fits(i) then Queued else Rejected)
    case Lock(i) =>
      s.Move(i, Checking(0.0)).(holder := s.holder.With(s.procs[i].bucket, Some(i)))
    case Check(i) =>
      var delay := s.LevelOf(i).WaitTime(s.Cost(i), s.clock);
      var waited := s.procs[i].at.waited;
      var next := if delay <= 0.0 then Consuming(waited) else Sleeping(delay, s.clock + delay, waited);
      s.Move(i, next).(levels := s.levels.With(s.procs[i].bucket, s.LevelOf(i).Refill(s.clock)))
    case Wake(i) => s.Move(i, Checking(s.procs[i].at.waited + s.procs[i].at.delay))
    case Consume(i) =>
      var b := s.procs[i].bucket;
      s.Move(i, Done(s.procs[i].at.waited)).(
        levels := s.levels.With(b, s.LevelOf(i).Consume(s.Cost(i), s.clock)),
        holder := s.holder.With(b, None))
    case Cancel(i) =>
      var b := s.procs[i].bucket;
      s.Move(i, Cancelled).(
        holder := if s.procs[i].at.Sleeping? then s.holder.With(b, None) else s.holder)
  }

  /** Every event of the run is enabled where it occurs. */
  predicate Runs(s: State, es: seq<Event>)
    decreases |es|
  {
    es == [] || (Enabled(s, es[0]) && Runs(Apply(s, es[0]), es[1..]))
  }

  function Exec(s: State, es: seq<Event>): State
    requires Runs(s, es)
    decreases |es|
  {
    if es == [] then s else Exec(Apply(s, es[0]), es[1..])
  }

  /** Tokens the run takes out of bucket `b`. */
  function Consumed(s: State, es: seq<Event>, b: Bucket): real
    requires Runs(s, es)
    decreases |es|
  {
    if es == [] then 0.0
    else Taken(s, es[0], b) + Consumed(Apply(s, es[0]), es[1..], b)
  }

  function Taken(s: State, e: Event, b: Bucket): real
    requires Enabled(s, e)
  {
    if e.Consume? && s.procs[e.i].bucket == b then s.Cost(e.i) else 0.0
  }

  // ---- invariants --------------------------------------------------------------------------

  /** What holds of any run, whatever `now` the observers inject. */
  ghost predicate Safe(s: State) {
    && s.levels.read.Sound()
    && s.levels.write.Sound()
    && (forall b: Bucket :: HolderIsCritical(s, b))
    && (forall i :: 0 <= i < |s.procs| ==> AcquirerSafe(s, i))
  }

  predicate HolderIsCritical(s: State, b: Bucket) {
    s.holder.At(b).Some? ==>
      var i := s.holder.At(b).value;
      i < |s.procs| && s.procs[i].bucket == b && s.procs[i].at.Critical()
  }

  /** Only the lock holder is past the lock; only an affordable cost gets that far; and whoever
      has passed the check can still afford its cost. */
  predicate AcquirerSafe(s: State, i: nat)
    requires i < |s.procs|
  {
    var p := s.procs[i];
    && (p.at.Critical() ==> s.holder.At(p.bucket) == Some(i))
    && (!p.at.Start? && !p.at.Rejected? ==> s.Fits(i))
    && (p.at.Consuming? ==> s.LevelOf(i).Held(s.clock) >= s.Cost(i))
  }

  /** What holds besides when no observer runs ahead of the clock: whoever has slept, or is
      asleep with its wake-up due, can afford its cost. */
  ghost predicate Prompt(s: State) {
    && s.levels.read.updated <= s.clock
    && s.levels.write.updated <= s.clock
    && (forall i :: 0 <= i < |s.procs| ==> AcquirerPrompt(s, i))
  }

  predicate AcquirerPrompt(s: State, i: nat)
    requires i < |s.procs|
  {
    match s.procs[i].at
    case Checking(w) => w >= 0.0 && (w > 0.0 ==> s.LevelOf(i).Held(s.clock) >= s.Cost(i))
    case Sleeping(d, u, w) => w == 0.0 && d > 0.0 && s.LevelOf(i).Held(u) >= s.Cost(i)
    case _ => true
  }

  /** The observer of this event, if it is one, does not read a clock from the future. */
  predicate OnTime(s: State, e: Event) {
    e.Observe? ==> e.now <= s.clock
  }

  predicate RunsOnTime(s: State, es: seq<Event>)
    requires Runs(s, es)
    decreases |es|
  {
    es == [] || (OnTime(s, es[0]) && RunsOnTime(Apply(s, es[0]), es[1..]))
  }

  /** Nobody has called yet: the buckets are sound, the locks free. */
  ghost predicate Initial(s: State) {
    && s.levels.read.Sound() && s.levels.write.Sound()
    && s.holder == PerBucket(None, None)
    && (forall i :: 0 <= i < |s.procs| ==> s.procs[i].at == Start)
  }

  lemma InitialIsSafe(s: State)
    requires Initial(s)
    ensures Safe(s)
    ensures s.levels.read.updated <= s.clock && s.levels.write.updated <= s.clock ==> Prompt(s)
  {}

  /** The static part of a state: no step changes a budget or who is asking for what. */
  predicate SameSetup(s: State, t: State) {
    && |t.procs| == |s.procs|
    && (forall i :: 0 <= i < |s.procs| ==>
          t.procs[i].bucket == s.procs[i].bucket && t.procs[i].cost == s.procs[i].cost)
    && (forall b: Bucket :: t.levels.At(b).rate == s.levels.At(b).rate
                            && t.levels.At(b).capacity == s.levels.At(b).capacity)
  }

  lemma StepKeepsSetup(s: State, e: Event)
    requires Enabled(s, e)
    ensures SameSetup(s, Apply(s, e))
  {}

  /** What a step on bucket `b` does to the levels: they stay sound and hold no less than before
      at any later instant, unless the step consumes. */
  lemma StepOnLevels(s: State, e: Event, t: real)
    requires Safe(s) && Enabled(s, e)
    requires s.clock <= t
    ensures Apply(s, e).levels.read.Sound() && Apply(s, e).levels.write.Sound()
    ensures !e.Consume? ==> forall b: Bucket :: Apply(s, e).levels.At(b).Held(t) >= s.levels.At(b).Held(t)
    ensures e.Consume? ==> forall b: Bucket :: b != s.procs[e.i].bucket ==>
                                               Apply(s, e).levels.At(b) == s.levels.At(b)
  {
    hide Gain, Level.WaitTime;
    match e
    case Observe(b, now) =>
      RefillSound(s.levels.At(b), now);
      HeldAfterRefill(s.levels.At(b), now, t);
    case Check(i) =>
      RefillSound(s.LevelOf(i), s.clock);
      HeldAfterRefill(s.LevelOf(i), s.clock, t);
    case Consume(i) =>
      assert AcquirerSafe(s, i);
      RefillSound(s.LevelOf(i), s.clock);
    case _ =>
  }

  lemma StepIsSafe(s: State, e: Event)
    requires Safe(s) && Enabled(s, e)
    ensures Safe(Apply(s, e))
  {
    hide Gain, Level.WaitTime;
    var t := Apply(s, e);
    StepOnLevels(s, e, t.clock);
    forall b: Bucket ensures HolderIsCritical(t, b) {
      assert HolderIsCritical(s, b);
      if e.ByAcquirer() { assert AcquirerSafe(s, e.i); }
    }
    forall i | 0 <= i < |t.procs| ensures AcquirerSafe(t, i) {
      assert AcquirerSafe(s, i);
      HeldGrowth(s.LevelOf(i), s.clock, t.clock);
      if e.ByAcquirer() {
        assert AcquirerSafe(s, e.i);
        assert HolderIsCritical(s, s.procs[i].bucket);
        if e.Check? { WaitTimeBrings(s.LevelOf(e.i), s.Cost(e.i), s.clock); }
      }
    }
  }

  /** Safety of every run: both buckets stay within [0, capacity], no two calls are past the
      same lock, and nobody consumes what is not there. */
  lemma {:induction false} RunIsSafe(s: State, es: seq<Event>)
    requires Safe(s) && Runs(s, es)
    ensures Safe(Exec(s, es))
    ensures SameSetup(s, Exec(s, es))
    decreases |es|
  {
    hide Gain, Level.WaitTime;
    if es == [] {
    } else {
      StepIsSafe(s, es[0]);
      StepKeepsSetup(s, es[0]);
      RunIsSafe(Apply(s, es[0]), es[1..]);
    }
  }

  lemma StepIsPrompt(s: State, e: Event)
    requires Safe(s) && Prompt(s) && Enabled(s, e) && OnTime(s, e)
    ensures Prompt(Apply(s, e))
  {
    hide Gain, Level.WaitTime;
    var t := Apply(s, e);
    forall i | 0 <= i < |t.procs| ensures AcquirerPrompt(t, i) {
      assert AcquirerPrompt(s, i) && AcquirerSafe(s, i);
      StepOnLevels(s, e, s.clock);
      HeldGrowth(s.LevelOf(i), s.clock, t.clock);
      if e.ByAcquirer() {
        assert AcquirerSafe(s, e.i);
        if e.i == i {
          OwnStepIsPrompt(s, e);
        } else if e.Consume? {
          assert s.procs[i].bucket == s.procs[e.i].bucket ==> !s.procs[i].at.Critical();
        }
      }
      if t.procs[i].at.Sleeping? && s.procs[i].at.Sleeping? {
        SleeperKeepsItsDue(s, e, i);
      }
    }
  }

  lemma OwnStepIsPrompt(s: State, e: Event)
    requires Safe(s) && Prompt(s) && Enabled(s, e) && e.ByAcquirer()
    ensures AcquirerPrompt(Apply(s, e), e.i)
  {
    hide Gain, Level.WaitTime;
    var i := e.i;
    assert AcquirerPrompt(s, i) && AcquirerSafe(s, i);
    match e
    case Check(_) =>
      var l, c := s.LevelOf(i), s.Cost(i);
      var d := l.WaitTime(c, s.clock);
      WaitTimeIsLeast(l, c, s.clock, 0.0);
      if d > 0.0 {
        WaitTimeIsLeast(l, c, s.clock, d);
        RefillTwice(l, s.clock, s.clock + d);
      }
    case Wake(_) =>
      HeldGrowth(s.LevelOf(i), s.procs[i].at.until, s.clock);
    case _ =>
  }

  /** Others may refill a sleeper's bucket, but only the lock holder empties it. */
  lemma SleeperKeepsItsDue(s: State, e: Event, i: nat)
    requires Safe(s) && Prompt(s) && Enabled(s, e)
    requires i < |s.procs| && s.procs[i].at.Sleeping? && Apply(s, e).procs[i].at.Sleeping?
    ensures AcquirerPrompt(Apply(s, e), i)
  {
    hide Gain, Level.WaitTime;
    var until := s.procs[i].at.until;
    assert AcquirerPrompt(s, i) && AcquirerSafe(s, i);
    if e.ByAcquirer() { assert AcquirerSafe(s, e.i); }
    match e
    case Observe(b, now) =>
      HeldAfterRefill(s.levels.At(b), now, until);
    case Check(j) =>
      HeldAfterRefill(s.LevelOf(j), s.clock, until);
    case _ =>
  }

  lemma {:induction false} RunIsPrompt(s: State, es: seq<Event>)
    requires Safe(s) && Prompt(s) && Runs(s, es) && RunsOnTime(s, es)
    ensures Safe(Exec(s, es)) && Prompt(Exec(s, es))
    decreases |es|
  {
    hide Gain, Level.WaitTime;
    if es == [] {
    } else {
      StepIsSafe(s, es[0]);
      StepIsPrompt(s, es[0]);
      RunIsPrompt(Apply(s, es[0]), es[1..]);
    }
  }

  // ---- runs end to end ---------------------------------------------------------------------

  lemma {:induction false} RunsConcat(s: State, xs: seq<Event>, ys: seq<Event>)
    requires Runs(s, xs)
    ensures Runs(s, xs + ys) <==> Runs(Exec(s, xs), ys)
    ensures Runs(s, xs + ys) ==> Exec(s, xs + ys) == Exec(Exec(s, xs), ys)
    ensures Runs(s, xs + ys) ==> forall b: Bucket ::
      Consumed(s, xs + ys, b) == Consumed(s, xs, b) + Consumed(Exec(s, xs), ys, b)
    ensures Runs(s, xs + ys) ==>
      (RunsOnTime(s, xs + ys) <==> RunsOnTime(s, xs) && RunsOnTime(Exec(s, xs), ys))
    decreases |xs|
  {
    if xs == [] {
      assert xs + ys == ys;
    } else {
      assert (xs + ys)[0] == xs[0] && (xs + ys)[1..] == xs[1..] + ys;
      RunsConcat(Apply(s, xs[0]), xs[1..], ys);
    }
  }
}
