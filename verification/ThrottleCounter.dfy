/** `self.throttled_seconds += await acquire(...)` of api/client.py, when several coroutines share one
    client. The counter is read before the wait and written after it, so what one request adds can
    be lost to another. */
module ThrottleCounter {
  import opened BucketSpec
  import opened LimiterProtocol
  import opened LimiterCompletion

  /** One coroutine reads the counter, writes it back with the wait added, or is abandoned between. */
  datatype Op =
    | Load(i: nat)
    | Store(i: nat, wait: real)
    | Drop(i: nat)

  /** The counter, and what each coroutine now waiting has read. */
  datatype Counter = Counter(value: real, held: map<nat, real>)

  predicate Ready(c: Counter, op: Op) {
    match op
    case Load(i) => i !in c.held
    case Store(i, wait) => i in c.held && wait >= 0.0
    case Drop(i) => i in c.held
  }

  function Do(c: Counter, op: Op): Counter
    requires Ready(c, op)
  {
    match op
    case Load(i) => c.(held := c.held[i := c.value])
    case Store(i, wait) => Counter(c.held[i] + wait, c.held - {i})
    case Drop(i) => c.(held := c.held - {i})
  }

  predicate Plays(c: Counter, ops: seq<Op>)
    decreases |ops|
  {
    ops == [] || (Ready(c, ops[0]) && Plays(Do(c, ops[0]), ops[1..]))
  }

  function After(c: Counter, ops: seq<Op>): Counter
    requires Plays(c, ops)
    decreases |ops|
  {
    if ops == [] then c else After(Do(c, ops[0]), ops[1..])
  }

  /** All that was waited by those who finished. */
  function Waits(ops: seq<Op>): real
    decreases |ops|
  {
    if ops == [] then 0.0 else (if ops[0].Store? then ops[0].wait else 0.0) + Waits(ops[1..])
  }

  /** Who has read the counter since its last write, given who had before this step. */
  function StillCurrent(current: set<nat>, op: Op): set<nat> {
    match op
    case Load(i) => current + {i}
    case Store(_, _) => {}
    case Drop(i) => current - {i}
  }

  /** Nobody writes between another's reading and its writing. `current` are those who have read
      since the last write. */
  predicate Serial(ops: seq<Op>, current: set<nat>)
    decreases |ops|
  {
    ops == [] ||
    ((ops[0].Store? ==> ops[0].i in current) && Serial(ops[1..], StillCurrent(current, ops[0])))
  }

  /** Requests wait one at a time. `waiting` are those who wait. */
  predicate OneAtATime(ops: seq<Op>, waiting: set<nat>)
    decreases |ops|
  {
    ops == [] ||
    match ops[0]
    case Load(i) => waiting == {} && OneAtATime(ops[1..], {i})
    case Store(i, _) => OneAtATime(ops[1..], waiting - {i})
    case Drop(i) => OneAtATime(ops[1..], waiting - {i})
  }

  predicate AllWait(ops: seq<Op>) {
    forall k :: 0 <= k < |ops| && ops[k].Store? ==> ops[k].wait > 0.0
  }

  // ---- what the counter ends at --------------------------------------------------------------

  /** Nobody has read more than is due. */
  ghost predicate Modest(c: Counter, due: real) {
    c.value <= due && forall i :: i in c.held ==> c.held[i] <= due
  }

  lemma {:induction false} StaysModest(c: Counter, ops: seq<Op>, due: real)
    requires Plays(c, ops) && Modest(c, due)
    ensures Modest(After(c, ops), due + Waits(ops))
    decreases |ops|
  {
    if ops == [] {
    } else {
      var wait := if ops[0].Store? then ops[0].wait else 0.0;
      StaysModest(Do(c, ops[0]), ops[1..], due + wait);
    }
  }

  /** The counter never claims more than was waited. */
  lemma CounterNeverOverstates(c: Counter, ops: seq<Op>)
    requires c.held == map[] && Plays(c, ops)
    ensures After(c, ops).value <= c.value + Waits(ops)
  {
    StaysModest(c, ops, c.value);
  }

  ghost predicate CurrentsAgree(c: Counter, current: set<nat>) {
    forall i :: i in current ==> i in c.held && c.held[i] == c.value
  }

  lemma {:induction false} SerialAddsUp(c: Counter, ops: seq<Op>, current: set<nat>)
    requires Plays(c, ops) && Serial(ops, current) && CurrentsAgree(c, current)
    ensures After(c, ops).value == c.value + Waits(ops)
    decreases |ops|
  {
    if ops == [] {
    } else {
      SerialAddsUp(Do(c, ops[0]), ops[1..], StillCurrent(current, ops[0]));
    }
  }

  /** Something has been lost, or will be when someone who read too early writes. */
  ghost predicate Behind(c: Counter, current: set<nat>, due: real) {
    && Modest(c, due)
    && (forall i :: i in c.held && i !in current ==> c.held[i] < due)
    && (forall i :: i in current ==> i in c.held && c.held[i] == c.value)
  }

  lemma {:induction false} LostStaysLost(c: Counter, ops: seq<Op>, current: set<nat>, due: real)
    requires Plays(c, ops) && AllWait(ops) && Behind(c, current, due)
    requires c.value < due || !Serial(ops, current)
    ensures After(c, ops).value < due + Waits(ops)
    decreases |ops|
  {
    if ops == [] {
    } else {
      var wait := if ops[0].Store? then ops[0].wait else 0.0;
      assert forall k :: 0 <= k < |ops[1..]| ==> ops[1..][k] == ops[k + 1];
      LostStaysLost(Do(c, ops[0]), ops[1..], StillCurrent(current, ops[0]), due + wait);
    }
  }

  /** When everyone who finishes has waited, the counter has grown by exactly what was waited if and
      only if nobody wrote between another's reading and its writing; otherwise it fell short. */
  lemma CounterIff(c: Counter, ops: seq<Op>)
    requires c.held == map[] && Plays(c, ops) && AllWait(ops)
    ensures After(c, ops).value == c.value + Waits(ops) <==> Serial(ops, {})
    ensures After(c, ops).value <= c.value + Waits(ops)
  {
    CounterNeverOverstates(c, ops);
    if Serial(ops, {}) {
      SerialAddsUp(c, ops, {});
    } else {
      LostStaysLost(c, ops, {}, c.value);
    }
  }

  // ---- for which schedules ------------------------------------------------------------------

  /** The same schedule with other waits. */
  ghost predicate SameSchedule(ops: seq<Op>, ops': seq<Op>) {
    && |ops| == |ops'|
    && forall k :: 0 <= k < |ops| ==>
         (if ops[k].Store? then ops'[k].Store? && ops'[k].i == ops[k].i && ops'[k].wait >= 0.0
          else ops'[k] == ops[k])
  }

  lemma {:induction false} ScheduleAlike(c: Counter, c': Counter, ops: seq<Op>, ops': seq<Op>, current: set<nat>)
    requires SameSchedule(ops, ops') && Plays(c, ops) && c.held.Keys == c'.held.Keys
    ensures Plays(c', ops') && (Serial(ops, current) <==> Serial(ops', current))
    decreases |ops|
  {
    if ops == [] {
    } else {
      assert forall k :: 0 <= k < |ops[1..]| ==> ops[1..][k] == ops[k + 1] && ops'[1..][k] == ops'[k + 1];
      ScheduleAlike(Do(c, ops[0]), Do(c', ops'[0]), ops[1..], ops'[1..], StillCurrent(current, ops[0]));
    }
  }

  /** A second for everyone. */
  function ASecondEach(ops: seq<Op>): (r: seq<Op>)
    ensures |r| == |ops|
  {
    seq(|ops|, k requires 0 <= k < |ops| => if ops[k].Store? then Store(ops[k].i, 1.0) else ops[k])
  }

  /** A schedule keeps count, however long anyone waits, exactly when it is serial. */
  lemma ScheduleIff(c: Counter, ops: seq<Op>)
    requires c.held == map[] && Plays(c, ops)
    ensures (forall ops' :: SameSchedule(ops, ops') ==>
               Plays(c, ops') && After(c, ops').value == c.value + Waits(ops'))
            <==> Serial(ops, {})
  {
    if Serial(ops, {}) {
      forall ops' | SameSchedule(ops, ops')
        ensures Plays(c, ops') && After(c, ops').value == c.value + Waits(ops')
      {
        ScheduleAlike(c, c, ops, ops', {});
        SerialAddsUp(c, ops', {});
      }
    } else {
      var ops' := ASecondEach(ops);
      assert SameSchedule(ops, ops');
      ScheduleAlike(c, c, ops, ops', {});
      CounterIff(c, ops');
    }
  }

  lemma {:induction false} OneAtATimeIsSerial(ops: seq<Op>, waiting: set<nat>, c: Counter)
    requires OneAtATime(ops, waiting) && Plays(c, ops) && c.held.Keys == waiting && |waiting| <= 1
    ensures Serial(ops, waiting)
    decreases |ops|
  {
    if ops == [] {
    } else {
      var rest := match ops[0]
        case Load(i) => {i}
        case Store(i, _) => waiting - {i}
        case Drop(i) => waiting - {i};
      if !ops[0].Load? {
        AtMostOne(waiting, ops[0].i);
      }
      OneAtATimeIsSerial(ops[1..], rest, Do(c, ops[0]));
      assert ops[0].Load? ==> waiting + {ops[0].i} == {ops[0].i};
    }
  }

  lemma AtMostOne(s: set<nat>, i: nat)
    requires |s| <= 1 && i in s
    ensures s - {i} == {}
  {
    assert |s - {i}| == |s| - 1;
  }

  /** Two who have read, and both will write: the second then writes over the first. */
  lemma {:induction false} TwoReadersClash(c: Counter, ops: seq<Op>, current: set<nat>, i: nat)
    requires Plays(c, ops) && After(c, ops).held == map[] && (forall op :: op in ops ==> !op.Drop?)
    requires i in c.held && (i !in current || exists j :: j in c.held && j != i)
    ensures !Serial(ops, current)
    decreases |ops|
  {
    if ops == [] {
    } else {
      assert ops[0] in ops;
      assert forall op :: op in ops[1..] ==> op in ops;
      match ops[0]
      case Load(j) =>
        if i in current {
          var k :| k in c.held && k != i;
          assert k in Do(c, ops[0]).held;
        }
        TwoReadersClash(Do(c, ops[0]), ops[1..], current + {j}, i);
      case Store(j, _) =>
        if j != i {
          TwoReadersClash(Do(c, ops[0]), ops[1..], {}, i);
        } else if i in current {
          var k :| k in c.held && k != i;
          TwoReadersClash(Do(c, ops[0]), ops[1..], {}, k);
        }
    }
  }

  lemma {:induction false} SerialIsOneAtATime(ops: seq<Op>, c: Counter, current: set<nat>)
    requires Plays(c, ops) && After(c, ops).held == map[] && (forall op :: op in ops ==> !op.Drop?)
    requires Serial(ops, current)
    ensures OneAtATime(ops, c.held.Keys)
    decreases |ops|
  {
    if ops == [] {
    } else {
      assert ops[0] in ops;
      assert forall op :: op in ops[1..] ==> op in ops;
      match ops[0]
      case Load(i) =>
        if j :| j in c.held {
          assert i in Do(c, ops[0]).held && j in Do(c, ops[0]).held && i != j;
          TwoReadersClash(Do(c, ops[0]), ops[1..], current + {i}, j);
        } else {
          assert c.held.Keys == {} && Do(c, ops[0]).held.Keys == {i};
          SerialIsOneAtATime(ops[1..], Do(c, ops[0]), current + {i});
        }
      case Store(i, _) =>
        assert Do(c, ops[0]).held.Keys == c.held.Keys - {i};
        SerialIsOneAtATime(ops[1..], Do(c, ops[0]), {});
    }
  }

  /** For requests that all finish, none abandoned, and all wait: the counter has grown by exactly
      the sum of their waits if and only if they waited one at a time. */
  lemma CounterIffOneAtATime(c: Counter, ops: seq<Op>)
    requires c.held == map[] && Plays(c, ops) && AllWait(ops)
    requires After(c, ops).held == map[] && forall op :: op in ops ==> !op.Drop?
    ensures After(c, ops).value == c.value + Waits(ops) <==> OneAtATime(ops, {})
  {
    CounterIff(c, ops);
    if OneAtATime(ops, {}) {
      OneAtATimeIsSerial(ops, {}, c);
    }
    if Serial(ops, {}) {
      SerialIsOneAtATime(ops, c, {});
    }
  }

  /** Two requests that each sleep a second, overlapping, count as one second. */
  lemma TwoCallersLoseOne(c: Counter, ops: seq<Op>)
    requires c == Counter(0.0, map[]) && ops == [Load(0), Load(1), Store(0, 1.0), Store(1, 1.0)]
    ensures Plays(c, ops) && Waits(ops) == 2.0 && After(c, ops).value == 1.0
  {
    var c1 := Do(c, Load(0));
    var c2 := Do(c1, Load(1));
    var c3 := Do(c2, Store(0, 1.0));
    var c4 := Do(c3, Store(1, 1.0));
    assert c4.value == 1.0;
    PlayOne(c3, [Store(1, 1.0)]);
    PlayOne(c2, [Store(0, 1.0), Store(1, 1.0)]);
    PlayOne(c1, [Load(1), Store(0, 1.0), Store(1, 1.0)]);
    PlayOne(c, ops);
  }

  lemma PlayOne(c: Counter, ops: seq<Op>)
    requires ops != [] && Ready(c, ops[0]) && Plays(Do(c, ops[0]), ops[1..])
    ensures Plays(c, ops) && After(c, ops) == After(Do(c, ops[0]), ops[1..])
    ensures Waits(ops) == (if ops[0].Store? then ops[0].wait else 0.0) + Waits(ops[1..])
  {}

  // ---- the counter beside a run of the limiter -----------------------------------------------

  /** What one step of an acquirer means for the counter of the client it acquires for. */
  function OpsOf(s: State, e: Event): seq<Op>
    requires Enabled(s, e)
  {
    match e
    case Call(i) => if s.Fits(i) then [Load(i)] else [Load(i), Drop(i)]
    case Consume(i) => [Store(i, s.procs[i].at.waited)]
    case Cancel(i) => [Drop(i)]
    case _ => []
  }

  function CounterOps(s: State, es: seq<Event>): seq<Op>
    requires Runs(s, es)
    decreases |es|
  {
    if es == [] then [] else OpsOf(s, es[0]) + CounterOps(Apply(s, es[0]), es[1..])
  }

  /** Those who have called and not returned are those who have read the counter; and nobody's wait
      is negative. */
  ghost predicate InStep(s: State, c: Counter) {
    && (forall i: nat :: i in c.held <==> InProgress(s, i))
    && (forall i :: 0 <= i < |s.procs| ==> WaitsForward(s.procs[i].at))
  }

  predicate WaitsForward(at: Progress) {
    match at
    case Checking(w) => w >= 0.0
    case Sleeping(d, _, w) => d >= 0.0 && w >= 0.0
    case Consuming(w) => w >= 0.0
    case _ => true
  }

  predicate InProgress(s: State, i: nat) {
    i < |s.procs| && !s.procs[i].at.Start? && !s.procs[i].at.Finished()
  }

  lemma StepWaitsForward(s: State, e: Event)
    requires Safe(s) && Enabled(s, e)
    requires forall i :: 0 <= i < |s.procs| ==> WaitsForward(s.procs[i].at)
    ensures forall i :: 0 <= i < |Apply(s, e).procs| ==> WaitsForward(Apply(s, e).procs[i].at)
  {
    if e.ByAcquirer() {
      assert WaitsForward(s.procs[e.i].at);
      if e.Check? { WaitTimeBrings(s.LevelOf(e.i), s.Cost(e.i), s.clock); }
    }
    hide Level.Refill, Level.WaitTime;
  }

  /** The step by which an acquirer returns, is rejected or is cancelled. */
  predicate Ends(s: State, e: Event)
    requires e.Call? ==> e.i < |s.procs|
  {
    e.Consume? || e.Cancel? || (e.Call? && !s.Fits(e.i))
  }

  /** Whose progress a step changes. */
  lemma StepProgress(s: State, e: Event, i: nat)
    requires Enabled(s, e)
    ensures InProgress(Apply(s, e), i)
            == if e.ByAcquirer() && e.i == i then !Ends(s, e) else InProgress(s, i)
    ensures e.ByAcquirer() ==> (InProgress(s, e.i) <==> !e.Call?)
  {
    hide Level.Refill, Level.WaitTime;
  }

  lemma StepStaysInStep(s: State, e: Event, c: Counter)
    requires Safe(s) && Enabled(s, e) && InStep(s, c)
    ensures Plays(c, OpsOf(s, e)) && InStep(Apply(s, e), After(c, OpsOf(s, e)))
    ensures Waits(OpsOf(s, e)) == if e.Consume? then s.procs[e.i].at.waited else 0.0
  {
    StepWaitsForward(s, e);
    forall i: nat ensures InProgress(Apply(s, e), i)
            == if e.ByAcquirer() && e.i == i then !Ends(s, e) else InProgress(s, i)
    {
      StepProgress(s, e, i);
    }
    if e.ByAcquirer() {
      StepProgress(s, e, e.i);
      assert WaitsForward(s.procs[e.i].at);
    }
    hide Apply, InProgress;
    if e.Call? && !s.Fits(e.i) {
      PlayOne(Do(c, Load(e.i)), [Drop(e.i)]);
      PlayOne(c, [Load(e.i), Drop(e.i)]);
    }
  }

  lemma {:induction false} PlaysConcat(c: Counter, xs: seq<Op>, ys: seq<Op>)
    requires Plays(c, xs) && Plays(After(c, xs), ys)
    ensures Plays(c, xs + ys) && After(c, xs + ys) == After(After(c, xs), ys)
    ensures Waits(xs + ys) == Waits(xs) + Waits(ys)
    decreases |xs|
  {
    if xs == [] {
      assert xs + ys == ys;
    } else {
      assert (xs + ys)[0] == xs[0] && (xs + ys)[1..] == xs[1..] + ys;
      PlaysConcat(Do(c, xs[0]), xs[1..], ys);
    }
  }

  /** What all calls that have returned waited, on either bucket. */
  function AllWaited(s: State): real {
    WaitedDone(s, Read) + WaitedDone(s, Write)
  }

  lemma {:induction false} RunKeepsCounter(s: State, es: seq<Event>, c: Counter)
    requires Safe(s) && Runs(s, es) && InStep(s, c)
    ensures Plays(c, CounterOps(s, es))
    ensures Waits(CounterOps(s, es)) == AllWaited(Exec(s, es)) - AllWaited(s)
    decreases |es|
  {
    hide Gain, Level.WaitTime, Level.Refill, InStep, OpsOf, WaitedDone;
    if es == [] {
    } else {
      var e, t := es[0], Apply(s, es[0]);
      StepIsSafe(s, e);
      StepStaysInStep(s, e, c);
      StepTotals(s, e, Read);
      StepTotals(s, e, Write);
      RunKeepsCounter(t, es[1..], After(c, OpsOf(s, e)));
      PlaysConcat(c, OpsOf(s, e), CounterOps(t, es[1..]));
    }
  }

  /** Beside any run of the limiter, whatever its observers do, the client's counter grows by at most
      what the calls that returned had waited, and by exactly that if no two calls are between
      calling and returning at once. */
  lemma CounterBesideTheLimiter(s: State, es: seq<Event>, c: Counter)
    requires Initial(s) && Runs(s, es) && c.held == map[]
    ensures var ops := CounterOps(s, es);
            && Plays(c, ops)
            && After(c, ops).value <= c.value + (AllWaited(Exec(s, es)) - AllWaited(s))
            && (OneAtATime(ops, {}) ==> After(c, ops).value == c.value + (AllWaited(Exec(s, es)) - AllWaited(s)))
  {
    InitialIsSafe(s);
    assert InStep(s, c);
    RunKeepsCounter(s, es, c);
    var ops := CounterOps(s, es);
    CounterNeverOverstates(c, ops);
    if OneAtATime(ops, {}) {
      OneAtATimeIsSerial(ops, {}, c);
      SerialAddsUp(c, ops, {});
    }
  }
}
