/** KalshiClient.request: the bounded retry loop of api/client.py, which charges the rate limiter
    before every attempt. The network is a stream of replies, jitter a stream of draws. */
module Client {
  import opened Results
  import opened RealArith
  import opened BucketSpec
  import opened LimiterProtocol
  import opened Limiter

  datatype Reply =
    | Status(code: int, body: string)
    | TimedOut
    | TransportFailed

  datatype ApiError =
    | NoCredentials
    | BadCost(cost: CostError)
    | Api(status: int)
    | RateLimited

  predicate Retryable(code: int) {
    code == 429 || code == 500 || code == 502 || code == 503 || code == 504
  }

  predicate Succeeds(r: Reply) {
    r.Status? && r.code < 400
  }

  /** An error status that is raised at once. */
  predicate Fatal(r: Reply) {
    r.Status? && r.code >= 400 && !Retryable(r.code)
  }

  predicate Settles(r: Reply) {
    Succeeds(r) || Fatal(r)
  }

  /** The first attempt below `limit` whose reply settles the request, or `limit`. */
  function FirstSettled(replies: nat -> Reply, limit: nat): (k: nat)
    ensures k <= limit
    ensures forall j :: 0 <= j < k ==> !Settles(replies(j))
    ensures k < limit ==> Settles(replies(k))
  {
    if limit == 0 then 0
    else
      var k := FirstSettled(replies, limit - 1);
      if k < limit - 1 || Settles(replies(limit - 1)) then k else limit
  }

  function AttemptLimit(maxRetries: int): nat {
    if maxRetries < 0 then 0 else maxRetries + 1
  }

  function Attempts(replies: nat -> Reply, maxRetries: int): (n: nat)
    ensures n <= AttemptLimit(maxRetries)
  {
    var k := FirstSettled(replies, AttemptLimit(maxRetries));
    if k < AttemptLimit(maxRetries) then k + 1 else k
  }

  function Verdict(replies: nat -> Reply, maxRetries: int): Result<string, ApiError> {
    var limit := AttemptLimit(maxRetries);
    var k := FirstSettled(replies, limit);
    if k < limit then
      if Succeeds(replies(k)) then Success(replies(k).body) else Failure(Api(replies(k).code))
    else if limit > 0 && replies(limit - 1).Status? && replies(limit - 1).code == 429 then
      Failure(RateLimited)
    else
      Failure(Api(503))
  }

  // ---- backoff -----------------------------------------------------------------------------

  function Pow2(k: nat): real {
    if k == 0 then 1.0 else 2.0 * Pow2(k - 1)
  }

  function BackoffDelay(base: real, jitter: nat -> real, k: nat): real {
    Times(Times(base, Pow2(k)), 0.5 + jitter(k))
  }

  function TotalBackoff(base: real, jitter: nat -> real, k: nat): real {
    if k == 0 then 0.0 else TotalBackoff(base, jitter, k - 1) + BackoffDelay(base, jitter, k - 1)
  }

  /** random.random() */
  ghost predicate IsJitter(jitter: nat -> real) {
    forall k: nat :: 0.0 <= jitter(k) < 1.0
  }

  /** With jitter j at every backoff, k of them take exactly base * (2^k - 1) * (1/2 + j). */
  lemma {:induction false} EvenJitterBackoff(base: real, j: real, k: nat)
    ensures TotalBackoff(base, (n: nat) => j, k) == Times(Times(base, Pow2(k) - 1.0), 0.5 + j)
  {
    hide Times;
    var x := 0.5 + j;
    TimesLaws(0.0, 0.0, base);
    TimesLaws(0.0, 0.0, x);
    if k == 0 {
      TimesLaws(Pow2(k) - 1.0, 0.0, base);
    } else {
      EvenJitterBackoff(base, j, k - 1);
      TimesLaws(Pow2(k - 1) - 1.0, Pow2(k - 1), base);
      TimesLaws(Pow2(k - 1), 0.0, base);
      TimesLaws(Pow2(k - 1) - 1.0, 0.0, base);
      TimesLaws(Pow2(k) - 1.0, 0.0, base);
      TimesLaws(Times(base, Pow2(k - 1) - 1.0), Times(base, Pow2(k - 1)), x);
      assert Pow2(k - 1) - 1.0 + Pow2(k - 1) == Pow2(k) - 1.0;
    }
  }

  /** Backoffs one by one: each doubles the one before, and its own jitter alone stretches it. */
  lemma JitterStretches(base: real, jitter: nat -> real, k: nat)
    ensures Times(BackoffDelay(base, jitter, k + 1), 0.5 + jitter(k))
            == 2.0 * Times(BackoffDelay(base, jitter, k), 0.5 + jitter(k + 1))
    ensures jitter(0) == 0.5 ==> BackoffDelay(base, jitter, 0) == base
  {
    var p, x, y := Times(base, Pow2(k)), 0.5 + jitter(k), 0.5 + jitter(k + 1);
    assert Times(base, Pow2(k + 1)) == 2.0 * p;
    assert 2.0 * p * y * x == 2.0 * (p * x * y);
  }

  /** After k backoffs a request has slept between a half and three halves of base * (2^k - 1). */
  lemma {:induction false} BackoffBounds(base: real, jitter: nat -> real, k: nat)
    requires base >= 0.0 && IsJitter(jitter)
    ensures Times(base, Pow2(k) - 1.0) >= 0.0
    ensures 0.5 * Times(base, Pow2(k) - 1.0) <= TotalBackoff(base, jitter, k)
                                              <= 1.5 * Times(base, Pow2(k) - 1.0)
  {
    hide Times;
    TimesLaws(0.0, 0.0, base);
    if k == 0 {
      TimesLaws(Pow2(k) - 1.0, 0.0, base);
    } else {
      BackoffBounds(base, jitter, k - 1);
      var step, x := Times(base, Pow2(k - 1)), 0.5 + jitter(k - 1);
      TimesLaws(Pow2(k - 1), Pow2(k - 1) - 1.0, base);
      TimesLaws(Pow2(k - 1), 0.0, base);
      TimesLaws(Pow2(k - 1) - 1.0, 0.0, base);
      TimesLaws(Pow2(k) - 1.0, 0.0, base);
      assert Pow2(k - 1) + (Pow2(k - 1) - 1.0) == Pow2(k) - 1.0;
      Pow2Positive(k - 1);
      TimesOrder(base, 0.0, Pow2(k - 1));
      TimesOrder(0.5, x, step);
      TimesOrder(x, 1.5, step);
      TimesLaws(x, 0.0, step);
      HalfOf(step);
    }
  }

  lemma HalfOf(x: real)
    ensures Times(0.5, x) == 0.5 * x && Times(1.5, x) == 1.5 * x
  {}

  lemma {:induction false} Pow2Positive(k: nat)
    ensures Pow2(k) >= 1.0
  {
    if k > 0 { Pow2Positive(k - 1); }
  }

  // ---- what a request does -----------------------------------------------------------------

  datatype Action = Charged(cost: int) | Sent(attempt: nat) | BackedOff(delay: real)

  /** Everything a request of `n` attempts does, in order. */
  function Script(n: nat, cost: int, base: real, jitter: nat -> real): seq<Action> {
    if n == 0 then []
    else if n == 1 then [Charged(cost), Sent(0)]
    else Script(n - 1, cost, base, jitter)
         + [BackedOff(BackoffDelay(base, jitter, n - 2)), Charged(cost), Sent(n - 1)]
  }

  function ChargedTotal(log: seq<Action>): int
    decreases |log|
  {
    if log == [] then 0
    else (if log[0].Charged? then log[0].cost else 0) + ChargedTotal(log[1..])
  }

  function SentTotal(log: seq<Action>): nat
    decreases |log|
  {
    if log == [] then 0 else (if log[0].Sent? then 1 else 0) + SentTotal(log[1..])
  }

  lemma {:induction false} LogConcat(x: seq<Action>, y: seq<Action>)
    ensures ChargedTotal(x + y) == ChargedTotal(x) + ChargedTotal(y)
    ensures SentTotal(x + y) == SentTotal(x) + SentTotal(y)
    decreases |x|
  {
    if x == [] {
      assert x + y == y;
    } else {
      assert (x + y)[0] == x[0] && (x + y)[1..] == x[1..] + y;
      LogConcat(x[1..], y);
    }
  }

  /** Nothing is ever sent before it is paid for: at every moment of a request, the tokens charged
      cover the attempts sent, and in the end they match exactly. */
  lemma {:induction false} EverySendIsPaid(n: nat, cost: int, base: real, jitter: nat -> real, m: nat)
    requires cost > 0 && m <= |Script(n, cost, base, jitter)|
    ensures var log := Script(n, cost, base, jitter);
            && SentTotal(log) == n && ChargedTotal(log) == n * cost
            && SentTotal(log[..m]) * cost <= ChargedTotal(log[..m])
  {
    var log := Script(n, cost, base, jitter);
    if n == 1 {
      TurnTotals(log, m);
    } else if n > 1 {
      var before := Script(n - 1, cost, base, jitter);
      var turn := [BackedOff(BackoffDelay(base, jitter, n - 2)), Charged(cost), Sent(n - 1)];
      EverySendIsPaid(n - 1, cost, base, jitter, if m <= |before| then m else |before|);
      TurnTotals(turn, if m <= |before| then 0 else m - |before|);
      LogConcat(before, turn);
      Distributes(n - 1, 1, cost);
      hide ChargedTotal, SentTotal;
      if m <= |before| {
        assert log[..m] == before[..m];
      } else {
        assert before[..|before|] == before;
        assert log[..m] == before + turn[..m - |before|];
        LogConcat(before, turn[..m - |before|]);
        Distributes(n - 1, SentTotal(turn[..m - |before|]), cost);
      }
    }
  }

  lemma Distributes(a: int, b: int, c: int)
    ensures (a + b) * c == a * c + b * c
  {}

  /** One attempt pays before it sends. */
  lemma TurnTotals(turn: seq<Action>, m: nat)
    requires 2 <= |turn| <= 3 && m <= |turn|
    requires |turn| == 3 ==> turn[0].BackedOff?
    requires turn[|turn| - 2].Charged? && turn[|turn| - 2].cost > 0 && turn[|turn| - 1].Sent?
    ensures SentTotal(turn) == 1 && ChargedTotal(turn) == turn[|turn| - 2].cost
    ensures SentTotal(turn[..m]) * turn[|turn| - 2].cost <= ChargedTotal(turn[..m])
  {
    var pay, send := turn[|turn| - 2], turn[|turn| - 1];
    hide ChargedTotal, SentTotal;
    if |turn| == 2 {
      assert turn == [pay, send];
      PayThenSend(pay, send, m);
    } else {
      var pair := [pay, send];
      assert turn == [turn[0]] + pair;
      Backoff(turn[0]);
      LogConcat([turn[0]], pair);
      if m == 0 {
        assert turn[..m] == pair[..0];
        PayThenSend(pay, send, 0);
      } else {
        PayThenSend(pay, send, m - 1);
        assert turn[..m] == [turn[0]] + pair[..m - 1];
        LogConcat([turn[0]], pair[..m - 1]);
      }
    }
  }

  lemma PayThenSend(pay: Action, send: Action, m: nat)
    requires pay.Charged? && pay.cost > 0 && send.Sent? && m <= 2
    ensures SentTotal([pay, send]) == 1 && ChargedTotal([pay, send]) == pay.cost
    ensures SentTotal([pay, send][..m]) * pay.cost <= ChargedTotal([pay, send][..m])
  {
    assert [send][1..] == [] && [pay][1..] == [];
    assert [pay, send] == [pay] + [send];
    LogConcat([pay], [send]);
    assert [pay, send][..m] == if m == 0 then [] else if m == 1 then [pay] else [pay, send];
  }

  lemma Backoff(a: Action)
    requires a.BackedOff?
    ensures SentTotal([a]) == 0 && ChargedTotal([a]) == 0
  {
    assert [a][1..] == [];
  }

  // ---- what it returns ---------------------------------------------------------------------

  /** A reply is retried exactly when nothing came back, or one of the five transient statuses did. */
  lemma SettlesIff(r: Reply)
    ensures Settles(r) <==> r.Status? && r.code !in {429, 500, 502, 503, 504}
    ensures Succeeds(r) <==> r.Status? && r.code < 400
  {}

  /** The first reply that is a success or a fatal error decides the request, whatever follows. */
  lemma FirstSettledDecides(replies: nat -> Reply, maxRetries: int, k: nat)
    requires k <= maxRetries
    requires forall j :: 0 <= j < k ==> !Settles(replies(j))
    requires Settles(replies(k))
    ensures Attempts(replies, maxRetries) == k + 1
    ensures Verdict(replies, maxRetries)
            == if Succeeds(replies(k)) then Success(replies(k).body) else Failure(Api(replies(k).code))
  {
    var f := FirstSettled(replies, AttemptLimit(maxRetries));
    assert f == k;
  }

  /** Without one, every attempt is used up, and the error is RateLimited exactly when the last
      reply was a 429, whatever the ones before it were. */
  lemma NoneSettlesDecides(replies: nat -> Reply, maxRetries: int)
    requires maxRetries >= 0
    requires forall j :: 0 <= j <= maxRetries ==> !Settles(replies(j))
    ensures Attempts(replies, maxRetries) == maxRetries + 1
    ensures var last := replies(maxRetries);
            Verdict(replies, maxRetries)
            == Failure(if last.Status? && last.code == 429 then RateLimited else Api(503))
  {
    var f := FirstSettled(replies, AttemptLimit(maxRetries));
    assert f == maxRetries + 1;
  }

  /** "Retries exhausted against repeated 429s": every attempt was answered with one. */
  ghost predicate Only429s(replies: nat -> Reply, maxRetries: int) {
    forall j :: 0 <= j <= maxRetries ==> replies(j).Status? && replies(j).code == 429
  }

  /** The rate-limit error is raised exactly when nothing settled the request and its last reply
      was a 429; so it means what its documentation says exactly when no such request had another
      failure before. */
  lemma RateLimitedIff(replies: nat -> Reply, maxRetries: int)
    requires maxRetries >= 0
    ensures var raised := Verdict(replies, maxRetries) == Failure(RateLimited);
            var last := replies(maxRetries);
            var unsettled := forall j :: 0 <= j <= maxRetries ==> !Settles(replies(j));
            && (raised <==> unsettled && last.Status? && last.code == 429)
            && (Only429s(replies, maxRetries) ==> raised)
            && ((raised <==> Only429s(replies, maxRetries)) <==>
                  (unsettled && last.Status? && last.code == 429 ==>
                     forall j :: 0 <= j < maxRetries ==> replies(j).Status? && replies(j).code == 429))
  {
    var k := FirstSettled(replies, AttemptLimit(maxRetries));
    if k <= maxRetries {
      FirstSettledDecides(replies, maxRetries, k);
    } else {
      NoneSettlesDecides(replies, maxRetries);
    }
  }

  /** For which retry limits the rate-limit error means what its documentation says, whatever the
      replies: only when there are no retries at all. */
  lemma RateLimitedMeansRepeatedIff(maxRetries: int)
    requires maxRetries >= 0
    ensures (forall replies: nat -> Reply ::
               Verdict(replies, maxRetries) == Failure(RateLimited) <==> Only429s(replies, maxRetries))
            <==> maxRetries == 0
  {
    if maxRetries == 0 {
      forall replies: nat -> Reply
        ensures Verdict(replies, maxRetries) == Failure(RateLimited) <==> Only429s(replies, maxRetries)
      {
        RateLimitedIff(replies, maxRetries);
      }
    } else {
      var replies := (k: nat) => Status(if k == 0 then 500 else 429, "");
      NoneSettlesDecides(replies, maxRetries);
      assert replies(0).code == 500;
      assert !Only429s(replies, maxRetries);
    }
  }

  /** A 500 and then a 429 end as the rate-limit error; a 429 and then a 500 do not. */
  lemma LastReplyDecides()
    ensures Verdict((k: nat) => Status(if k == 0 then 500 else 429, ""), 1) == Failure(RateLimited)
    ensures !Only429s((k: nat) => Status(if k == 0 then 500 else 429, ""), 1)
    ensures Verdict((k: nat) => Status(if k == 0 then 429 else 500, ""), 1) == Failure(Api(503))
  {
    NoneSettlesDecides((k: nat) => Status(if k == 0 then 500 else 429, ""), 1);
    NoneSettlesDecides((k: nat) => Status(if k == 0 then 429 else 500, ""), 1);
    assert ((k: nat) => Status(if k == 0 then 500 else 429, ""))(0).code == 500;
  }

  /** Allowing more retries never changes a request that was settled. */
  lemma MoreRetriesKeepSettled(replies: nat -> Reply, maxRetries: int, more: int)
    requires maxRetries <= more
    requires FirstSettled(replies, AttemptLimit(maxRetries)) < AttemptLimit(maxRetries)
    ensures Verdict(replies, more) == Verdict(replies, maxRetries)
    ensures Attempts(replies, more) == Attempts(replies, maxRetries)
  {
    var k := FirstSettled(replies, AttemptLimit(maxRetries));
    FirstSettledDecides(replies, maxRetries, k);
    FirstSettledDecides(replies, more, k);
  }

  /** How attempt number `attempt` ends the request, if its reply does. */
  function Ending(reply: Reply, attempt: nat, maxRetries: int): Option<Result<string, ApiError>> {
    if Succeeds(reply) then Some(Success(reply.body))
    else if Fatal(reply) then Some(Failure(Api(reply.code)))
    else if reply.Status? && reply.code == 429 && attempt == maxRetries then Some(Failure(RateLimited))
    else None
  }

  /** No attempt so far has ended the request. */
  ghost predicate Unsettled(replies: nat -> Reply, attempts: nat, maxRetries: int) {
    forall j :: 0 <= j < attempts ==> Ending(replies(j), j, maxRetries).None?
  }

  lemma StillUnsettled(replies: nat -> Reply, attempt: nat, maxRetries: int)
    requires Unsettled(replies, attempt, maxRetries)
    requires Ending(replies(attempt), attempt, maxRetries).None?
    ensures Unsettled(replies, attempt + 1, maxRetries)
  {}

  lemma EndingIsVerdict(replies: nat -> Reply, attempt: nat, maxRetries: int)
    requires attempt <= maxRetries && Unsettled(replies, attempt, maxRetries)
    requires Ending(replies(attempt), attempt, maxRetries).Some?
    ensures Ending(replies(attempt), attempt, maxRetries).value == Verdict(replies, maxRetries)
    ensures Attempts(replies, maxRetries) == attempt + 1
  {
    assert forall j :: 0 <= j < attempt ==> !Settles(replies(j));
    if Settles(replies(attempt)) {
      FirstSettledDecides(replies, maxRetries, attempt);
    } else {
      NoneSettlesDecides(replies, maxRetries);
    }
  }

  lemma ExhaustedVerdict(replies: nat -> Reply, maxRetries: int)
    requires Unsettled(replies, AttemptLimit(maxRetries), maxRetries)
    ensures Verdict(replies, maxRetries) == Failure(Api(503))
    ensures Attempts(replies, maxRetries) == AttemptLimit(maxRetries)
  {
    assert forall j :: 0 <= j < AttemptLimit(maxRetries) ==> !Settles(replies(j));
    if maxRetries >= 0 {
      assert Ending(replies(maxRetries), maxRetries, maxRetries).None?;
      NoneSettlesDecides(replies, maxRetries);
    }
  }

  lemma WaitIsNotNegative(l: Level, cost: real, start: real, looks: seq<real>, found: real, finish: real, waited: real)
    requires Waited(l, cost, start, looks, found, finish, waited)
    ensures waited >= 0.0 && start + waited <= finish
  {}

  // ---- the client --------------------------------------------------------------------------

  /** What was so when a request went out: the tokens its bucket had handed out by then, and the
      seconds the clock had been asked to sleep. */
  datatype Sending = Sending(spent: real, asked: real)

  /** The network: it answers the k-th request sent on it with `replies(k)`, and every request
      sent leaves its mark. */
  class Transport {
    const replies: nat -> Reply
    var sent: nat
    ghost var sends: seq<Sending>

    constructor (replies: nat -> Reply)
      ensures this.replies == replies && Valid() && sends == []
    {
      this.replies := replies;
      sent := 0;
      sends := [];
    }

    ghost predicate Valid()
      reads this
    {
      |sends| == sent
    }

    method Send(ghost bucket: TokenBucket, ghost clock: Clock) returns (reply: Reply)
      requires Valid()
      modifies this
      ensures Valid()
      ensures reply == replies(old(sent)) && sent == old(sent) + 1
      ensures sends == old(sends) + [Sending(bucket.spent, clock.asked)]
    {
      reply := replies(sent);
      sent := sent + 1;
      sends := sends + [Sending(bucket.spent, clock.asked)];
    }
  }

  /** The replies from the one numbered `base` on. */
  function From(replies: nat -> Reply, base: nat): nat -> Reply {
    (k: nat) => replies(base + k)
  }

  class KalshiClient {
    const http: Transport
    const limiter: RateLimiter
    const clock: Clock
    const hasSigner: bool
    const maxRetries: int
    const backoffBase: real
    var throttledSeconds: real

    ghost predicate Valid()
      reads this, limiter, limiter.read, limiter.write, http
    {
      limiter.Valid() && http.Valid()
    }

    constructor (http: Transport, tier: Tier, clock: Clock, hasSigner: bool, maxRetries: int, backoffBase: real)
      requires http.Valid()
      ensures Valid() && throttledSeconds == 0.0
      ensures fresh(limiter) && fresh(limiter.read) && fresh(limiter.write)
      ensures this.http == http && this.clock == clock
      ensures this.hasSigner == hasSigner && this.maxRetries == maxRetries
      ensures this.backoffBase == backoffBase && limiter.tier == tier
      ensures limiter.read.Value() == FullLevel(tier, Read, clock.now)
      ensures limiter.write.Value() == FullLevel(tier, Write, clock.now)
    {
      this.http := http;
      this.limiter := new RateLimiter(tier, clock.now);
      this.clock := clock;
      this.hasSigner := hasSigner;
      this.maxRetries := maxRetries;
      this.backoffBase := backoffBase;
      this.throttledSeconds := 0.0;
    }

    function BucketFor(isGet: bool, bucket: Option<Bucket>): Bucket {
      if bucket.Some? then bucket.value else if isGet then Read else Write
    }

    /** One attempt of a request: charge, send, look at the reply, and back off if there is to be
        another. Returns the error `_check_cost` raises, or how the attempt ends the request; `acts`
        records each act where it happens. As in the source, the throttle counter is read before the
        wait and written after it; what overlapping requests make of that is in ThrottleCounter. */
    method Attempt(b: Bucket, cost: int, attempt: nat, delay: real)
      returns (error: Option<CostError>, ended: Option<Result<string, ApiError>>, ghost acts: seq<Action>)
      requires Valid() && attempt <= maxRetries
      modifies this`throttledSeconds, clock, limiter.At(b), http
      ensures Valid()
      ensures error == limiter.CheckCost(b, cost)
      ensures error.Some? ==>
        acts == [] && unchanged(this) && unchanged(clock) && unchanged(limiter.At(b)) && unchanged(http)
      ensures error.None? ==>
        && acts == [Charged(cost), Sent(attempt)]
                   + (if ended.None? && attempt < maxRetries then [BackedOff(delay)] else [])
        && limiter.At(b).spent == old(limiter.At(b).spent) + cost as real
        && throttledSeconds >= old(throttledSeconds)
        && ended == Ending(http.replies(old(http.sent)), attempt, maxRetries) && http.sent == old(http.sent) + 1
      ensures error.None? ==>
        var waited := throttledSeconds - old(throttledSeconds);
        var slept := waited + (if ended.None? && attempt < maxRetries then delay else 0.0);
        && clock.now >= old(clock.now) + slept && clock.asked == old(clock.asked) + slept
        && http.sends == old(http.sends) + [Sending(old(limiter.At(b).spent) + cost as real, old(clock.asked) + waited)]
    {
      hide Level.Refill, Level.WaitTime, Level.Held, Level.Consume, Waited;
      ended, acts := None, [];
      var loaded := throttledSeconds;
      var waited, looks, found := limiter.Acquire(b, cost, clock);
      if waited.Failure? {
        return Some(waited.error), None, [];
      }
      WaitIsNotNegative(old(limiter.At(b).Value()), cost as real, old(clock.now), looks, found, clock.now,
                        waited.value);
      error := None;
      acts := [Charged(cost)];
      throttledSeconds := loaded + waited.value;
      var reply := http.Send(limiter.At(b), clock);
      acts := acts + [Sent(attempt)];
      if reply.Status? {
        if reply.code < 400 {
          ended := Some(Success(reply.body));
          return;
        }
        if !Retryable(reply.code) {
          ended := Some(Failure(Api(reply.code)));
          return;
        }
        if attempt == maxRetries && reply.code == 429 {
          ended := Some(Failure(RateLimited));
          return;
        }
      }
      if attempt < maxRetries {
        clock.Sleep(delay);
        acts := acts + [BackedOff(delay)];
      }
    }

    /** What `n` attempts at `cost` have done to bucket `b`, the throttle counter and the clock,
        since they read `spent`, `throttled`, `start` and `asked`: every second slept was either
        backoff or throttling, and the counter grew by exactly the latter. */
    ghost predicate Accounts(b: Bucket, n: nat, cost: int, backoff: real,
                             spent: real, throttled: real, start: real, asked: real)
      reads this, clock, limiter.At(b)
    {
      && limiter.At(b).spent == spent + Times(n as real, cost as real)
      && throttledSeconds >= throttled
      && clock.asked - asked == (throttledSeconds - throttled) + backoff
      && clock.now >= start + (throttledSeconds - throttled) + backoff
    }

    /** The last `n` requests sent, after those in `before`: each found its own cost, and that of
        every one before it, already taken from bucket `b`, and its backoffs slept. */
    ghost predicate PaidSends(b: Bucket, n: nat, cost: int, jitter: nat -> real,
                              before: seq<Sending>, spent: real, asked: real)
      reads http
    {
      && |http.sends| == |before| + n && before <= http.sends
      && forall j :: |before| <= j < |http.sends| ==>
           PaidSend(http.sends[j], j - |before|, cost, jitter, spent, asked)
    }

    ghost predicate PaidSend(at: Sending, k: nat, cost: int, jitter: nat -> real, spent: real, asked: real) {
      at.spent == spent + Times(k as real + 1.0, cost as real)
      && at.asked >= asked + TotalBackoff(backoffBase, jitter, k)
    }

    /** The retry loop. It makes exactly the attempts its replies call for, finds the cost of each
        taken from its bucket before it is sent, and reports the time it was throttled; the clock
        has moved at least by that and by the backoffs. */
    method Retry(b: Bucket, cost: int, jitter: nat -> real)
      returns (r: Result<string, ApiError>, ghost log: seq<Action>)
      requires Valid() && IsJitter(jitter)
      modifies this`throttledSeconds, clock, limiter.At(b), http
      ensures Valid()
      ensures maxRetries < 0 || limiter.CheckCost(b, cost).Some? ==>
        log == [] && unchanged(this) && unchanged(clock) && unchanged(limiter.At(b)) && unchanged(http)
      ensures maxRetries >= 0 && limiter.CheckCost(b, cost).Some? ==>
        r == Failure(BadCost(limiter.CheckCost(b, cost).value))
      ensures maxRetries < 0 || limiter.CheckCost(b, cost).None? ==>
        r == Verdict(From(http.replies, old(http.sent)), maxRetries)
      ensures maxRetries >= 0 && limiter.CheckCost(b, cost).None? ==>
        var n := Attempts(From(http.replies, old(http.sent)), maxRetries);
        && n >= 1
        && log == Script(n, cost, backoffBase, jitter)
        && Accounts(b, n, cost, TotalBackoff(backoffBase, jitter, n - 1),
                    old(limiter.At(b).spent), old(throttledSeconds), old(clock.now), old(clock.asked))
        && PaidSends(b, n, cost, jitter, old(http.sends), old(limiter.At(b).spent), old(clock.asked))
    {
      hide Times, BackoffDelay, FirstSettled, Ending, Valid, RateLimiter.Valid, RateLimiter.CheckCost,
        LogBefore, BackoffBefore, Script, TotalBackoff, Verdict, Attempts, Unsettled, PaidSend;
      log := [];
      ghost var replies := From(http.replies, http.sent);
      TimesLaws(0.0, 0.0, cost as real);
      LoopEnds(replies, cost, jitter);
      var attempt := 0;
      while attempt <= maxRetries
        invariant 0 <= attempt <= AttemptLimit(maxRetries)
        invariant Valid() && http.sent == old(http.sent) + attempt
        invariant attempt == 0 ==>
          unchanged(this) && unchanged(clock) && unchanged(limiter.At(b)) && unchanged(http)
        invariant attempt > 0 ==> limiter.CheckCost(b, cost).None?
        invariant log == LogBefore(attempt, cost, jitter)
        invariant Unsettled(replies, attempt, maxRetries)
        invariant Accounts(b, attempt, cost, BackoffBefore(attempt, jitter),
                           old(limiter.At(b).spent), old(throttledSeconds), old(clock.now), old(clock.asked))
        invariant PaidSends(b, attempt, cost, jitter, old(http.sends), old(limiter.At(b).spent), old(clock.asked))
        decreases maxRetries - attempt
      {
        var delay := BackoffDelay(backoffBase, jitter, attempt);
        var error, ended, acts := Attempt(b, cost, attempt, delay);
        if error.Some? {
          return Failure(BadCost(error.value)), log;
        }
        log := log + acts;
        TimesLaws(attempt as real, 1.0, cost as real);
        OneMoreAttempt(attempt, cost, jitter);
        assert PaidSend(http.sends[|old(http.sends)| + attempt], attempt, cost, jitter,
                        old(limiter.At(b).spent), old(clock.asked)) by {
          IsPaidSend(http.sends[|old(http.sends)| + attempt], attempt, cost, jitter,
                     old(limiter.At(b).spent), old(clock.asked));
        }
        if ended.Some? {
          EndingIsVerdict(replies, attempt, maxRetries);
          return ended.value, log;
        }
        StillUnsettled(replies, attempt, maxRetries);
        attempt := attempt + 1;
      }
      ExhaustedVerdict(replies, maxRetries);
      return Failure(Api(503)), log;
    }

    lemma IsPaidSend(at: Sending, k: nat, cost: int, jitter: nat -> real, spent: real, asked: real)
      requires at.spent == spent + Times(k as real + 1.0, cost as real)
      requires at.asked >= asked + TotalBackoff(backoffBase, jitter, k)
      ensures PaidSend(at, k, cost, jitter, spent, asked)
    {}

    /** One request with retries: refused without credentials it needs, and otherwise whatever
        the retry loop makes of it on the bucket its method selects. The other bucket is not
        touched. */
    method Request(isGet: bool, bucket: Option<Bucket>, authenticated: bool, cost: int, jitter: nat -> real)
      returns (r: Result<string, ApiError>, ghost log: seq<Action>)
      requires Valid() && IsJitter(jitter)
      modifies this`throttledSeconds, clock, limiter.At(BucketFor(isGet, bucket)), http
      ensures Valid()
      ensures authenticated && !hasSigner ==>
        r == Failure(NoCredentials) && log == [] && unchanged(this) && unchanged(clock) && unchanged(http)
        && unchanged(limiter.At(BucketFor(isGet, bucket)))
      ensures !(authenticated && !hasSigner)
              && (maxRetries < 0 || limiter.CheckCost(BucketFor(isGet, bucket), cost).Some?) ==>
        && r == (if maxRetries < 0 then Verdict(From(http.replies, old(http.sent)), maxRetries)
                 else Failure(BadCost(limiter.CheckCost(BucketFor(isGet, bucket), cost).value)))
        && log == [] && unchanged(this) && unchanged(clock) && unchanged(http)
        && unchanged(limiter.At(BucketFor(isGet, bucket)))
      ensures !(authenticated && !hasSigner) && maxRetries >= 0
              && limiter.CheckCost(BucketFor(isGet, bucket), cost).None? ==>
        var b, replies := BucketFor(isGet, bucket), From(http.replies, old(http.sent));
        var n := Attempts(replies, maxRetries);
        && r == Verdict(replies, maxRetries)
        && log == Script(n, cost, backoffBase, jitter)
        && n >= 1
        && Accounts(b, n, cost, TotalBackoff(backoffBase, jitter, n - 1),
                    old(limiter.At(b).spent), old(throttledSeconds), old(clock.now), old(clock.asked))
        && PaidSends(b, n, cost, jitter, old(http.sends), old(limiter.At(b).spent), old(clock.asked))
      ensures bucket == Some(Read) || (bucket == None && isGet) ==>
        && unchanged(limiter.write)
        && (!(authenticated && !hasSigner) && maxRetries >= 0 && 0 < cost && cost as real <= limiter.read.capacity ==>
              limiter.read.spent
              == old(limiter.read.spent)
                 + Times(Attempts(From(http.replies, old(http.sent)), maxRetries) as real, cost as real))
      ensures bucket == Some(Write) || (bucket == None && !isGet) ==>
        && unchanged(limiter.read)
        && (!(authenticated && !hasSigner) && maxRetries >= 0 && 0 < cost && cost as real <= limiter.write.capacity ==>
              limiter.write.spent
              == old(limiter.write.spent)
                 + Times(Attempts(From(http.replies, old(http.sent)), maxRetries) as real, cost as real))
    {
      hide Times, Attempts, Verdict, Script, TotalBackoff, PaidSends;
      if authenticated && !hasSigner {
        return Failure(NoCredentials), [];
      }
      r, log := Retry(BucketFor(isGet, bucket), cost, jitter);
    }

    lemma LoopEnds(replies: nat -> Reply, cost: int, jitter: nat -> real)
      ensures LogBefore(0, cost, jitter) == [] && BackoffBefore(0, jitter) == 0.0
      ensures Unsettled(replies, 0, maxRetries)
      ensures var n := AttemptLimit(maxRetries);
              n >= 1 ==> LogBefore(n, cost, jitter) == Script(n, cost, backoffBase, jitter)
                         && BackoffBefore(n, jitter) == TotalBackoff(backoffBase, jitter, n - 1)
    {}

    /** The log as the loop finds it at the top of an attempt, the last backoff done. */
    ghost function LogBefore(attempt: nat, cost: int, jitter: nat -> real): seq<Action> {
      Script(attempt, cost, backoffBase, jitter)
      + if 0 < attempt <= maxRetries then [BackedOff(BackoffDelay(backoffBase, jitter, attempt - 1))] else []
    }

    ghost function BackoffBefore(attempt: nat, jitter: nat -> real): real {
      TotalBackoff(backoffBase, jitter, if 0 < attempt == maxRetries + 1 then attempt - 1 else attempt)
    }

    lemma OneMoreAttempt(attempt: nat, cost: int, jitter: nat -> real)
      requires attempt <= maxRetries
      ensures LogBefore(attempt, cost, jitter) + ([Charged(cost), Sent(attempt)] + [])
              == Script(attempt + 1, cost, backoffBase, jitter)
      ensures LogBefore(attempt + 1, cost, jitter)
              == LogBefore(attempt, cost, jitter)
                 + ([Charged(cost), Sent(attempt)]
                    + if attempt < maxRetries then [BackedOff(BackoffDelay(backoffBase, jitter, attempt))] else [])
      ensures BackoffBefore(attempt, jitter) == TotalBackoff(backoffBase, jitter, attempt)
      ensures BackoffBefore(attempt + 1, jitter)
              == BackoffBefore(attempt, jitter)
                 + if attempt < maxRetries then BackoffDelay(backoffBase, jitter, attempt) else 0.0
    {}
  }
}
