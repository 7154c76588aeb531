# Verified model of the Kalshi market-data client

This project models, in Dafny 4.11, the four parts of the repository that everything else relies
on, and proves what they are for.

1. **Rate limiter** (`BucketSpec`, `LimiterProtocol`, `LimiterBounds`, `LimiterIndependence`,
   `LimiterCompletion`, `LimiterLead`, `LimiterServer`, `Limiter`). A lazily refilled token bucket; the objects that update it in
   place; and `acquire` as a state machine over any number of coroutines, where checking and
   consuming are separate steps, sleeps may overrun, waiting calls may be cancelled, the lock may
   pass to waiters in any order, and unlocked observers refill a bucket at any moment, at a time of
   their own choosing.
2. **Payoff-state proof and fee gate** (`Money`, `Contracts`, `Fees`, `FeeTheorems`, `Markets`,
   `Arbitrage`). The closed-form payoff bounds against all settlement states, the quadratic fees
   with a ceiling per order, and the two joined: the gate passes exactly when every permitted
   settlement state makes money.
3. **Client loops** (`Client`, `ThrottleCounter`, `Pagination`). The bounded retry loop, which pays the
   limiter before every attempt; the throttle counter that requests of one client share; and cursor
   pagination against a server that may answer anything.
4. **Append-only store and audited sweep** (`Store`, `StoreHistory`, `Ingest`, `IngestTheorems`).
   The tables, single writes and the sweep's transaction, with a failure possible at any write, and
   the audit that runs before it.

`Results`, `RealArith` and `Filtering` hold shared helpers: optional values and results, the laws of
products and quotients of reals, and what a filtering comprehension selects.

How the source is read:

- Time, tokens and money are exact reals. Python's 28-digit Decimal context is taken as exact once
  and for all; rounding to a unit is modelled as it is written, with a ceiling or a floor.
- What the environment decides is a parameter: clock readings, jitter, replies, which write raises
  and how. Theorems hold for every choice.
- A raised exception is a `Failure`, or an optional error next to the state it leaves.
- Code that changes objects is a class whose methods are proved against a function of the old
  state; the theorems are about that function. A source method with nested loops is split at the
  inner loop.
- Some proofs `hide` definitions, so that products of reals are reasoned about through their laws.

Check it with `dafny verify dfyconfig.toml`.

## Where the code and its documentation differ

The model follows the code.

- `src/kalshi_arb/api/ratelimit.py:98-100` says some buckets above Basic bank one second. Line 101
  gives every tier above Basic two, as `docs/KALSHI_API_NOTES.md:336` does. `TierWindow` states the
  bound that follows, and `ServerBudgetIff` and `OneSecondServerRefuses` say which servers it suits.
- `src/kalshi_arb/api/client.py:52-53` describes the rate-limit error as retries exhausted against
  repeated 429s. It is raised whenever the last reply is a 429, whatever came before, and a request
  whose earlier replies were 429s but whose last was not ends as a 503 (`RateLimitedIff`,
  `RateLimitedMeansRepeatedIff`, `LastReplyDecides`).
- `src/kalshi_arb/api/client.py:129-130` expects several coroutines on one client, but line 143 reads
  the throttle counter before the wait and writes it after, so overlapping requests overwrite each
  other's share and the sweep report's throttled seconds can fall short (`TwoCallersLoseOne`,
  `CounterIff`).
- `src/kalshi_arb/data/storage.py:159-160` promises that a crash cannot leave a half-written sweep.
  That holds of what is committed. Inside the process an interrupt or a failing COMMIT leaves the
  transaction open, the partial rows visible on the connection, and every later write uncommitted
  (`FailedSweepCommitsNothing`, `OpenTransactionWedgesTheStore`, `WedgedIff`,
  `InterruptedSweepWedges`).
- `src/kalshi_arb/markets/models.py:230-231` says a price off the grid has no tick. `tick_at` returns the
  tick of the first band that contains the price, on its grid or not (`OffGridPricesHaveTicks`, `HalfCentHasATick`).
- The fee tests compare maker and taker fees on default multipliers. In general the maker pays no
  more exactly under the condition in `MakerIsCheaperIff`.
- The injected `now` of an observer may run ahead of the clock. The budget is then only bounded
  against the latest such `now` (`WindowBound`), a server may refuse, and a call may sleep again and
  again until the clock catches up. `ClockBoundIff`, `ServerIff` and `OneSleepIff` say exactly when
  the promises survive: for no lead at all, unless the bucket serves nobody.
- `wait_time` asked with a `now` before the last refill returns a delay that is too short
  (`WaitTimeIsLeastIff`).

## Model

| member | source | states |
|---|---|---|
| `BucketSpec.RefillIsPathIndependent` | src/kalshi_arb/api/ratelimit.py:69-73 | However often and in whatever order a bucket is polled up to time t, refilling it at t then gives exactly what one refill at t gives |
| `BucketSpec.HeldGrowth` | src/kalshi_arb/api/ratelimit.py:69-73 | Between two instants a bucket never loses tokens, and gains exactly what its rate brings, capped at its capacity |
| `BucketSpec.HeldAfterRefill` | src/kalshi_arb/api/ratelimit.py:112-115 | A poll at any time, past or future, never leaves a bucket looking emptier |
| `BucketSpec.WaitTimeIsLeastIff` | src/kalshi_arb/api/ratelimit.py:75-80 | `wait_time` is the least delay after which the cost fits (it fits after a delay iff the delay is at least that) exactly when it is asked no earlier than the last refill, or the tokens left then suffice; asked earlier without them, it is too short |
| `BucketSpec.OversizedNeverFits` | src/kalshi_arb/api/ratelimit.py:124-132 | A cost above the capacity fits at no time, so refusing it at once loses nothing |
| `LimiterProtocol.StepIsSafe` | src/kalshi_arb/api/ratelimit.py:134-150 | Every single step of any acquirer, observer or clock keeps: tokens within [0, capacity], one lock holder past each lock, and every acquirer past its check able to afford its cost |
| `LimiterProtocol.RunIsSafe` | src/kalshi_arb/api/ratelimit.py:134-150 | The same over every run of any number of acquirers and observers, in any interleaving, with cancellations |
| `LimiterProtocol.RunIsPrompt` | src/kalshi_arb/api/ratelimit.py:134-150 | With observers that do not read a clock from the future, whoever has slept finds its cost there when it looks again |
| `LimiterBounds.WindowBound` | src/kalshi_arb/api/ratelimit.py:69-84 | Between any two points of any run a bucket gives out at most capacity + rate * elapsed, time measured by the clock or the latest injected `now` |
| `LimiterBounds.ClockWindowBound` | src/kalshi_arb/api/ratelimit.py:3-12 | The same over a run with time measured by the clock alone, for observers whose `now` is never ahead of it |
| `LimiterBounds.AheadObserverBreaksClockBound` | src/kalshi_arb/api/ratelimit.py:112-115 | A literal run: one `available` call a second ahead of the clock, and more than the capacity leaves at one instant |
| `LimiterLead.ClockBoundIff` | src/kalshi_arb/api/ratelimit.py:112-150 | For every rate, capacity and lead: the clock bound holds of every run whose observers are at most `lead` ahead of the clock iff lead <= 0, or the bucket holds less than one token |
| `LimiterLead.LeadWindowBound` | src/kalshi_arb/api/ratelimit.py:112-150 | Observers up to `lead` ahead let out at most capacity + rate * (elapsed + lead) |
| `LimiterLead.ServerIff` | src/kalshi_arb/api/ratelimit.py:3-12 | A server with the same budget, starting full, admits every run whose observers are at most `lead` ahead iff lead <= 0, or the bucket holds less than one token |
| `LimiterLead.OneSleepIff` | src/kalshi_arb/api/ratelimit.py:134-150 | Every call sleeps at most once in every run whose observers are at most `lead` ahead, under exactly that condition |
| `LimiterServer.ServerBudgetIff` | src/kalshi_arb/api/ratelimit.py:95-107 | For observers that keep to the clock and a local bucket of whole capacity: a server that starts full admits every run iff it refills no slower and banks no less |
| `LimiterServer.OneSecondServerRefuses` | src/kalshi_arb/api/ratelimit.py:98-101 | A server that banked one second would admit every run of a tier iff the tier is Basic |
| `LimiterBounds.ServerNeverRefuses` | src/kalshi_arb/api/ratelimit.py:8-12 | Every run whose observers keep to the clock is admitted without one 429 by a server bucket with at least the same rate, capacity and holding |
| `LimiterBounds.FullServerNeverRefuses` | src/kalshi_arb/api/ratelimit.py:3-12 | The same for a server bucket that starts full |
| `LimiterIndependence.OtherBucketIsInvisible` | src/kalshi_arb/api/ratelimit.py:10-12 | Leave the other bucket's events out of a run and this bucket, its lock and all its acquirers end exactly where they did: reads never delay a cancel |
| `LimiterIndependence.PollingIsInvisible` | src/kalshi_arb/api/ratelimit.py:112-122 | Leave every `available` and `wait_time` poll out of a run whose observers keep to the clock, and every acquirer is admitted as before, with the same waiting times |
| `LimiterCompletion.AcquirerWorkIsBounded` | src/kalshi_arb/api/ratelimit.py:138-150 | With observers that keep to the clock, one call of `acquire` takes at most six steps and sleeps at most once, however late it is woken: the measure of its `while True` |
| `LimiterCompletion.ConsumedIsCostDone` | src/kalshi_arb/api/ratelimit.py:146-148 | A run takes from a bucket exactly the costs of the calls that return during it; rejected and cancelled calls take nothing |
| `LimiterCompletion.NoRunFinishesEarlier` | src/kalshi_arb/api/ratelimit.py:134-150 | No run, whatever its observers do, completes calls before start + max(0, (cost - held) / rate), measured to the latest instant the bucket knows of; by the clock when observers keep to it |
| `LimiterCompletion.EagerRunFinishesExactly` | src/kalshi_arb/api/ratelimit.py:134-150 | With ideal sleeps and on-time observers, from a free lock to a free lock: whatever calls returned, they finish at exactly that instant, and their `waited` values sum to exactly the time that passed |
| `LimiterCompletion.QueueDrainsExactly` | src/kalshi_arb/api/ratelimit.py:134-150 | Whatever calls are outstanding on a bucket with a free lock, every such run that finishes them all ends at start + max(0, (sum of their costs - held) / rate), and their `waited` values sum to exactly that delay |
| `LimiterCompletion.EagerFinishExists` | src/kalshi_arb/api/ratelimit.py:134-150 | Such runs exist, from every state reached with on-time observers |
| `LimiterCompletion.NobodyIsStuck` | src/kalshi_arb/api/ratelimit.py:138-150 | While a call on a bucket is unfinished, some call on it can move at once or when its sleep is due: no deadlock |
| `LimiterCompletion.EveryoneCanFinish` | src/kalshi_arb/api/ratelimit.py:138-150 | From every reachable state, whatever observers did to reach it, some schedule without cancellations lets every call on a bucket return |
| `Limiter.TokenBucket.Refill` | src/kalshi_arb/api/ratelimit.py:69-73 | The in-place refill is the refill of the specification |
| `Limiter.TokenBucket.WaitTime` | src/kalshi_arb/api/ratelimit.py:75-80 | Refills in place and returns the specified delay |
| `Limiter.TokenBucket.Consume` | src/kalshi_arb/api/ratelimit.py:82-84 | Takes the cost after a refill, without a check |
| `Limiter.TokenBucket.WaitAndConsume` | src/kalshi_arb/api/ratelimit.py:138-150 | The locked loop ends whatever the clock and earlier polls did; takes a cost that is there, returns exactly the sum of the delays it was told and slept, and leaves the bucket as one consume at the last reading would |
| `Limiter.RateLimiter.constructor` | src/kalshi_arb/api/ratelimit.py:95-107 | Both buckets start full, at the tier's read and write rates, holding one second of budget at Basic and two above |
| `Limiter.PublishedBudgets` | docs/KALSHI_API_NOTES.md:328-337 | Every tier's rates and capacities, as the published table and the sentence below it give them |
| `Limiter.RateLimiter.RefusedCosts` | src/kalshi_arb/api/ratelimit.py:124-132 | `_check_cost` refuses exactly a cost that is not positive, and a positive one that the bucket holds at no time; the two errors are told apart |
| `Limiter.RateLimiter.CallRejectsWhatIsRefused` | src/kalshi_arb/api/ratelimit.py:141 | A call is rejected in the protocol exactly when `_check_cost` raises, so protocol and object refuse the same calls |
| `Limiter.RateLimiter.DefaultCostIsServed` | src/kalshi_arb/api/ratelimit.py:124-132 | The default cost of a request is refused by no bucket of any tier |
| `Limiter.RateLimiter.Available` | src/kalshi_arb/api/ratelimit.py:112-115 | Returns what the bucket holds at `now`, and refills only that bucket |
| `Limiter.RateLimiter.WaitTime` | src/kalshi_arb/api/ratelimit.py:117-122 | Refuses exactly a cost that is not positive or above the bucket's capacity, without touching the bucket, and otherwise returns the specified delay |
| `Limiter.RateLimiter.Acquire` | src/kalshi_arb/api/ratelimit.py:134-150 | Refuses iff the cost is not positive or above capacity, and then changes nothing; otherwise as the locked loop, on the one bucket, however far ahead it was polled |
| `Limiter.OnTimeWaitsOnce` | src/kalshi_arb/api/ratelimit.py:138-150 | On a bucket not polled ahead of the clock a call waits at most once, for exactly what was due at its first look |
| `Limiter.AcquireIsARun` | src/kalshi_arb/api/ratelimit.py:134-150 | Every outcome that contract allows, with all its looks and sleeps, on a bucket polled ahead or not, is a run of the protocol, so the theorems about runs apply to calls of `acquire` |
| `Limiter.TierWindow` | src/kalshi_arb/api/ratelimit.py:95-107 | From construction on, no run takes more than rate * (burst + elapsed) of a bucket, to the latest instant it was polled at, or to the clock when observers keep to it: one second of burst at Basic, two above |
| `Money.RoundUpUnique` | src/kalshi_arb/types.py:101-108 | `ceil_to` is the one multiple of the unit in [value, value + unit), and the least multiple that reaches the value |
| `Money.RoundUpRefines` | src/kalshi_arb/types.py:101-108 | Rounding up to a fine unit and then to a multiple of it is rounding to the multiple at once |
| `Money.FloorMirrorsCeil` | src/kalshi_arb/types.py:111-115 | `floor_to` is `ceil_to` mirrored, and the two enclose the value |
| `Money.UnitMustBePositive` | src/kalshi_arb/types.py:101-115 | Both roundings are refused exactly for a unit that is not positive |
| `Contracts.BoundsExist` | src/kalshi_arb/contracts.py:214-231 | Exactly when `basket_payoff_bounds` returns bounds rather than raising, and how many legs each bound pays |
| `Contracts.BoundsRefused` | src/kalshi_arb/contracts.py:214-216 | Why there are none: no leg, then a negative count, then inverted bounds |
| `Contracts.BoundsAreExact` | src/kalshi_arb/contracts.py:185-231 | The closed form is the true minimum and maximum over every permitted settlement state: no state pays outside, and a permitted state attains each end |
| `Contracts.PayoffCountsLegs` | src/kalshi_arb/contracts.py:110-124 | The leg-by-leg payoff of a basket is its number of paying legs times count times notional |
| `Contracts.YesAndNoComplete` | src/kalshi_arb/contracts.py:110-124 | All YES legs and all NO legs together pay every leg's notional in every state |
| `Contracts.CrossedBookIsTheOnlyProfit` | src/kalshi_arb/contracts.py:127-182 | Buying both sides at the derived asks makes minus the effective spread however the market resolves, so it profits iff the complement invariant fails |
| `Contracts.BidsInRange` | src/kalshi_arb/contracts.py:127-182 | A derived ask, the invariant and the spread exist exactly for bids between nothing and the notional, and bid and derived ask add up to it |
| `Contracts.PermitsWhenKept` | src/kalshi_arb/contracts.py:59-71 | Dropping legs preserves "at most one YES"; it preserves "exactly one" iff the YES leg is kept |
| `Fees.PricedIff` | src/kalshi_arb/fees/model.py:202-230 | Exactly which orders have a fee and which raise |
| `Fees.RawFeeFormula` | src/kalshi_arb/fees/model.py:165-230 | The official formula: a taker pays 0.07 times the taker multiplier, a maker 0.0175 times the given multiplier or times 0, 1 or 2 by fee type, of count * price * (notional - price) / notional; a flat fee is per contract |
| `Fees.HundredAtFifty` | src/kalshi_arb/fees/model.py:8-11 | A line of the official table: 100 contracts at 0.50 cost a default taker 1.75 and a default maker nothing |
| `Fees.RefusedOrders` | src/kalshi_arb/fees/model.py:216-228 | Why an order has no fee: its notional, its count, its price, or a flat schedule without a fee, in that order |
| `Fees.BreakdownIsOfTheOrder` | src/kalshi_arb/fees/model.py:247-257 | A fee comes with the order it is for and its value before rounding |
| `Fees.AcceptedSchedules` | src/kalshi_arb/fees/model.py:130-136 | A schedule is accepted unchanged, exactly when no multiplier and no flat fee is negative |
| `Fees.ApiSchedule` | src/kalshi_arb/fees/model.py:138-163 | What the API's fields make of a schedule: fee type, taker multiplier, implied maker multiplier, precision; and why one is refused |
| `Fees.EffectivePriceIff` | src/kalshi_arb/fees/model.py:321-327 | An order has an effective price exactly when it buys something and has a fee; why it has none |
| `Fees.FeeIsRoundedRaw` | src/kalshi_arb/fees/model.py:247-257 | The charged fee is plain ceiling of the model fee: the special case for zero changes nothing, and rounding costs less than one unit |
| `Fees.BasketPricedIff` | src/kalshi_arb/fees/model.py:259-281 | A basket has a cost iff every leg has a fee |
| `Fees.RoundingSandwich` | src/kalshi_arb/fees/model.py:273-281 | Rounding leg by leg costs at least the pooled fee rounded once, and less than one unit per charged leg above the model fee; nothing if no leg is charged |
| `Fees.BasketCostConcat` | src/kalshi_arb/fees/model.py:273-281 | Basket cost is additive over concatenation |
| `Fees.BasketCostPermutes` | src/kalshi_arb/fees/model.py:273-281 | Basket cost, and whether there is one, does not depend on the order of the legs |
| `Fees.RoundTripIsTwoOrders` | src/kalshi_arb/fees/model.py:283-305 | A round trip has a cost iff both orders have a fee, costs what a basket of the two does when the roles agree, and less than two units above the two model fees otherwise |
| `FeeTheorems.SplittingNeverHelps` | src/kalshi_arb/fees/model.py:221-257 | However an order is split into k >= 1 orders at its price: fee(whole) <= sum of fees <= fee(whole) + (k - 1) units, in both precisions, both roles and flat mode |
| `FeeTheorems.PrecisionRefines` | src/kalshi_arb/fees/model.py:99-112 | The non-direct fee is the direct fee rounded up to a cent: direct <= non-direct < direct + 0.01 |
| `FeeTheorems.FeeShape` | src/kalshi_arb/fees/model.py:221-257 | The charged fee is monotone in count, equal for a price and its complement, nondecreasing up to half the notional and largest there |
| `FeeTheorems.MakerIsCheaperIff` | src/kalshi_arb/fees/model.py:165-175 | Maker fee <= taker fee on every order iff the effective maker multiplier is at most four times the taker multiplier, or the fee is flat |
| `FeeTheorems.ApiMakerIsCheaperIff` | src/kalshi_arb/fees/model.py:138-169 | Which API schedules are refused; a flat one from the API prices no order; and for the others resting is never dearer than crossing iff the multiplier is at least 1/4 (maker fees) or 1/2 (combo maker fees) |
| `FeeTheorems.SquaresExceed` | src/kalshi_arb/fees/model.py:230 | n * sum of squares >= square of the sum, equal iff all numbers are equal |
| `FeeTheorems.NoBasketRaw` | src/kalshi_arb/fees/model.py:230-281 | For quadratic fees, the total model fee of buying every NO leg is rate * count * (S - Q / notional), S the sum and Q the sum of squares of the YES bids |
| `FeeTheorems.NoBasketFeeBound` | src/kalshi_arb/fees/model.py:230-281 | For quadratic fees, that is at most rate * count * (S - S^2 / (n * notional)), with equality iff all bids are equal or nothing is charged |
| `Markets.FirstContaining` | src/kalshi_arb/markets/models.py:230-239 | The band `tick_at` reads its tick from: the first that contains the price, or none contains it |
| `Markets.OnGridIff` | src/kalshi_arb/markets/models.py:91-95 | On a band's grid is: in the band, a whole number of positive ticks above its start |
| `Markets.WithoutBands` | src/kalshi_arb/markets/models.py:241-245 | A market without bands accepts every price up to its notional and has no tick |
| `Markets.FlagProves` | src/kalshi_arb/markets/models.py:263-273 | An event permits exactly the settlements its flag proves: at most one YES with it, any without it, never an assumed partition |
| `Markets.AnyBandIsFirstBandIff` | src/kalshi_arb/markets/models.py:88-95 | On ordered bands, `is_valid_price` (any band) agrees with the grid of the band `tick_at` selects at every price iff every joint of two bands is on the grid of the earlier one |
| `Markets.ValidPriceHasTick` | src/kalshi_arb/markets/models.py:230-245 | A valid price has a tick iff the market lists bands |
| `Markets.NextTickIsValid` | src/kalshi_arb/markets/models.py:230-245 | In a band that ends on its own grid, a valid price below that end plus its tick is again a valid price of that band |
| `Markets.OffGridPricesHaveTicks` | src/kalshi_arb/markets/models.py:230-245 | On ordered bands `tick_at` has a tick only for valid prices, as documented, iff every band is a single point |
| `Markets.HalfCentHasATick` | src/kalshi_arb/markets/models.py:230-245 | A literal market: on a cent grid half a cent has a tick and is not valid |
| `Markets.ActiveLegsAreKept` | src/kalshi_arb/markets/models.py:275-277 | `active_markets` are the active markets in order, each once, and the restricted settlement is how exactly those resolved, position by position |
| `Markets.ActiveAre` | src/kalshi_arb/markets/models.py:275-277 | `active_markets` is the one list holding the active markets in order, each as often as it occurs |
| `Arbitrage.NetEdgeExists` | src/kalshi_arb/contracts.py:214-240 | When the gate answers: there is a leg and every leg has a fee |
| `Arbitrage.CertificateIsExact` | src/kalshi_arb/contracts.py:185-240 | Guaranteed gross edge less per-leg rounded fees is exactly what the basket makes in its worst permitted settlement state, so it is positive iff every permitted state makes money |
| `Arbitrage.PooledRoundingOverstates` | src/kalshi_arb/fees/model.py:259-281 | Rounding the pooled fee once would never give a smaller edge than the gate does |
| `Arbitrage.EffectivePricesCarryFees` | src/kalshi_arb/fees/model.py:307-327 | Effective prices times count add up to the outlay plus the rounded fees, and none is below its quote |
| `Arbitrage.OverroundIsTheEdge` | src/kalshi_arb/markets/models.py:279-285 | Buying every active NO leg at its derived ask has worst-case edge count * (yes_bid_sum - notional) less fees |
| `Arbitrage.EventProfitIsTheBaskets` | src/kalshi_arb/markets/models.py:275-277 | Profit counted market by market over the event is the profit of the active basket in the state its legs settled in |
| `Arbitrage.OverroundIsSound` | src/kalshi_arb/markets/models.py:263-285 | In every settlement of the whole event with at most one YES, the purchase, counted market by market over the event with inactive markets contributing nothing, makes at least that edge |
| `Arbitrage.NoGuaranteeNoEdge` | src/kalshi_arb/contracts.py:207-212 | Where a permitted state pays no leg (any side when unconstrained, YES when merely exclusive) the gate never passes |
| `Arbitrage.UnflaggedNeverPasses` | src/kalshi_arb/markets/models.py:263-273 | The gate of an event that is not flagged exclusive never passes, on either side; nor does the YES side of one that is |
| `Arbitrage.OverroundTest` | src/kalshi_arb/markets/models.py:279-285 | For quadratic fees, a test on n, the bid sum and the notional alone that guarantees profit, counted over the event, in every settlement with at most one YES |
| `Client.BackoffBounds` | src/kalshi_arb/api/client.py:162-164 | After k backoffs the total slept is between base * (2^k - 1) / 2 and 3 * base * (2^k - 1) / 2 |
| `Client.EvenJitterBackoff` | src/kalshi_arb/api/client.py:162-164 | With jitter j at every backoff, k of them take exactly base * (2^k - 1) * (1/2 + j) |
| `Client.JitterStretches` | src/kalshi_arb/api/client.py:162-164 | Each backoff doubles the one before and is stretched by its own jitter alone |
| `Client.SettlesIff` | src/kalshi_arb/api/client.py:37 | A reply is retried exactly when nothing came back or its status is one of 429, 500, 502, 503, 504; it succeeds below 400 |
| `Client.EverySendIsPaid` | src/kalshi_arb/api/client.py:141-146 | At every moment of a request the tokens charged cover the attempts sent, and at the end they are equal |
| `Client.FirstSettledDecides` | src/kalshi_arb/api/client.py:150-158 | The first success or non-retryable error decides the outcome and the number of attempts, whatever would follow |
| `Client.NoneSettlesDecides` | src/kalshi_arb/api/client.py:158-166 | Otherwise all max_retries + 1 attempts are used, and the error is the rate-limit error iff the last reply was a 429 |
| `Client.RateLimitedIff` | src/kalshi_arb/api/client.py:158-166 | The rate-limit error is raised iff nothing settled the request and the last reply was a 429; when that misses its documented meaning, reply by reply |
| `Client.RateLimitedMeansRepeatedIff` | src/kalshi_arb/api/client.py:52-53 | It means "every attempt got a 429" for all replies iff no retries are allowed |
| `Client.LastReplyDecides` | src/kalshi_arb/api/client.py:158-166 | Literal replies: 500 then 429 raises it, 429 then 500 does not |
| `Client.MoreRetriesKeepSettled` | src/kalshi_arb/api/client.py:141-166 | Allowing more retries never changes a request that was settled |
| `Client.KalshiClient.Attempt` | src/kalshi_arb/api/client.py:141-164 | With no other request on the client meanwhile: one attempt charges, then sends, then ends the request or backs off; what it sends is sent after its cost was taken and its wait slept; the throttle counter grows by exactly that wait; a refused cost changes and sends nothing |
| `Client.KalshiClient.Retry` | src/kalshi_arb/api/client.py:140-166 | With no other request on the client meanwhile: the loop returns the verdict its replies determine, sends exactly the attempts they call for, each with its own cost and those of all before it already taken and its backoffs slept; all time slept is backoff or added to the throttle counter, exactly |
| `Client.KalshiClient.Request` | src/kalshi_arb/api/client.py:117-166 | With no other request on the client meanwhile: refuses without needed credentials before charging; otherwise exactly as the loop, its refusals included. A GET charges the read bucket and leaves the write bucket as it was, any other method the other way round, an explicit bucket exactly that one |
| `ThrottleCounter.CounterIff` | src/kalshi_arb/api/client.py:143 | When requests share the client: the throttle counter never claims more than was waited, and, when all who finish have waited, has grown by exactly that iff nobody writes it between another reading and writing it |
| `ThrottleCounter.ScheduleIff` | src/kalshi_arb/api/client.py:143 | A schedule of requests keeps exact count whatever each waits iff it is serial in that sense |
| `ThrottleCounter.CounterIffOneAtATime` | src/kalshi_arb/api/client.py:143 | For requests that all finish, none abandoned, and all wait: exact iff they wait one at a time |
| `ThrottleCounter.TwoCallersLoseOne` | src/kalshi_arb/api/client.py:143 | A literal schedule: two overlapping requests that each wait a second leave the counter at one second |
| `ThrottleCounter.CounterBesideTheLimiter` | src/kalshi_arb/api/client.py:143 | Beside any run of the limiter the counter grows by at most what the returned calls waited, and by exactly that when no two of them overlap |
| `Pagination.Paginate` | src/kalshi_arb/api/client.py:171-205 | Terminates; the requests the server receives are the run of the cursor protocol, no more and no others, and the pages of that run are yielded in order |
| `Pagination.NoCursorTwice` | src/kalshi_arb/api/client.py:200-205 | No cursor is followed twice, against any server |
| `Pagination.RunSpelledOut` | src/kalshi_arb/api/client.py:187-205 | A run goes on after a reply exactly when it was a page with items and a nonempty cursor not followed before, and there was room for one more |
| `Pagination.PagesAreYieldedWhole` | src/kalshi_arb/api/client.py:190-193 | What is yielded is the pages, whole, in order and next to each other |
| `Pagination.RequestsAreBounded` | src/kalshi_arb/api/client.py:187-205 | At most one request more than there are cursors |
| `Pagination.RunIsUnique` | src/kalshi_arb/api/client.py:187-205 | A deterministic server allows exactly one run, which stops at the first empty page, missing cursor or repeat |
| `Pagination.CapYieldsPrefix` | src/kalshi_arb/api/client.py:197-199 | With a page cap the result is a page-aligned prefix of the uncapped one, of exactly the capped length |
| `Store.MarketDataStore.RecordSnapshotSweep` | src/kalshi_arb/data/storage.py:315-333 | With an exception, an interrupt or a commit failure possible at any write: the state is that of the transaction specification, and the counts returned are those of its events and markets |
| `Store.MarketDataStore.Perform` | src/kalshi_arb/data/storage.py:158-168 | One write inside the transaction: it goes through, or raises and rolls back, or is interrupted and leaves the transaction open |
| `Store.MarketDataStore.RecordQuote` | src/kalshi_arb/data/storage.py:253-275 | Appends exactly one quote row, showing this market's status, four prices and sizes under the given capture time, or now if none or an empty one is given; or raises and changes nothing |
| `Store.MarketDataStore.RecordOrderbook` | src/kalshi_arb/data/storage.py:277-304 | Appends one book row, each side from the dollar array if it holds a level and from the other array otherwise, with the same rule for its time; or raises and changes nothing |
| `Store.MarketDataStore.RecordSystemEvent` | src/kalshi_arb/data/storage.py:306-313 | Appends one operational row, or raises and changes nothing |
| `StoreHistory.HistoryOnlyGrows` | src/kalshi_arb/data/storage.py:158-168 | Over any history of calls, failed, interrupted and wedged ones included, every committed time series only grows and no reference key disappears |
| `StoreHistory.FailedSweepCommitsNothing` | src/kalshi_arb/data/storage.py:158-168 | A sweep fails iff the environment stops one of its statements or its COMMIT, and then commits nothing; the connection is exactly as before iff what stopped it was an Exception in a write, and otherwise the transaction is left open with the rows written so far |
| `StoreHistory.OpenTransactionWedgesTheStore` | src/kalshi_arb/data/storage.py:158-168 | From an open transaction no later call ever commits anything, and every sweep is refused |
| `StoreHistory.WedgedIff` | src/kalshi_arb/data/storage.py:158-168 | Exactly when that happens: some sweep was interrupted at one of its |events| + (1 or 2) * |markets| statements, or its COMMIT failed |
| `StoreHistory.InterruptedSweepWedges` | src/kalshi_arb/data/storage.py:158-168 | A literal history: one interrupted sweep, after which a quote recorded on its own is visible and never committed |
| `StoreHistory.SuccessfulSweep` | src/kalshi_arb/data/storage.py:315-333 | A successful sweep appends one quote per market, in order, under one capture time, leaves each reference key at its last written row, and touches nothing else |
| `StoreHistory.SweepReadsBack` | src/kalshi_arb/data/storage.py:185-275 | Read back field by field: quote i of the sweep shows market i under the one capture time; under each ticker the last market, and the last event, of the sweep |
| `StoreHistory.LastWriteWins` | src/kalshi_arb/data/storage.py:172-249 | After any writes a key holds the row and the time of its last write |
| `StoreHistory.LastWithIff` | src/kalshi_arb/data/storage.py:208-249 | The row a key ends with is the one no other row of that key follows |
| `Ingest.MarketIngestor.Audit` | src/kalshi_arb/data/ingest.py:80-101 | Counts every event and market; records every crossed book, in order, in the report and as one row; at the first row that cannot be written it stops with that ticker already reported |
| `Ingest.MarketIngestor.CheckShards` | src/kalshi_arb/data/ingest.py:68-78 | Lists one index for each shard whose flag is absent or false, in order, and notes a halt exactly when the exchange-wide flag is there and false |
| `Ingest.MarketIngestor.Sweep` | src/kalshi_arb/data/ingest.py:103-131 | The report, the failing stage and the whole new store, for every combination of the modelled failures of the exchange and of the store |
| `Ingest.CrossedAre` | src/kalshi_arb/data/ingest.py:91-92 | The crossed books are the one list holding the markets with yes_bid + no_bid > notional in order, each as often as it occurs |
| `Ingest.ViolationShows` | src/kalshi_arb/data/ingest.py:91-101 | Each violation row names its market and shows the two bids that exceed the notional |
| `IngestTheorems.SweepConserves` | src/kalshi_arb/data/ingest.py:103-131 | On success: markets == quotes == quotes appended == markets fetched, crossed books and violation rows correspond one to one in order, and the summary row says what the report says |
| `IngestTheorems.FailureLeavesOnlyNotes` | src/kalshi_arb/data/ingest.py:103-131 | On a store not already inside a transaction, a sweep that fails before its summary commits exactly the operational rows it had written; if only the summary fails, the slice is there |
| `IngestTheorems.SummaryIffComplete` | src/kalshi_arb/data/ingest.py:119-130 | On a store not already inside a transaction, a sweep_complete row is gained iff the whole sweep succeeded |

## Left out

- HTTP transport, JSON decoding, pydantic validation, the CLI and printing: library behaviour. Replies, pages and fetched events are abstract values.
- Request signing and key loading (`src/kalshi_arb/api/auth.py`) and the trading-mode gate (`src/kalshi_arb/config.py`): foreign cryptography, and a small branch table.
- SQL text, row ids, WAL and SQLite's own crash recovery: tables are maps and sequences, BEGIN and ROLLBACK are snapshot and restore. Titles, strikes, dates and the summary sentence of an operational row are not carried.
- `quote_history` and `counts`: reads that SQLite answers; no order is claimed for equal capture times.
- Floating point in the limiter and the Decimal context's 28 digits: both are exact reals here.
- Parsing of strings, and refusing floats, in `to_decimal`: prices, counts and notionals arrive as numbers.
- The network between limiter and server: the simulated server sees each request when it is consumed locally.
- asyncio's fairness: the lock may go to any waiter, which covers the FIFO order it uses.
- Paginate: the first request carries no cursor; a caller's own cursor among the query parameters, and abandoning the iterator midway, are not modelled. Without a page cap the server's cursors must be finitely many, because otherwise the loop need not end.
- Attempt: a success whose body fails to decode, and cancellation while it sleeps or sends, are not modelled.
- Request: as an object it is one request at a time; what overlapping requests do to the buckets is in the limiter's protocol, and what they do to the throttle counter in ThrottleCounter.
- RecordSnapshotSweep: BEGIN or ROLLBACK itself raising, other than BEGIN inside a transaction, is not modelled. The events are a list; an iterable that raises while it is consumed is not modelled apart from the write it precedes.
- Sweep: the client calls inside it are replies given in advance, and its waiting time is a parameter.
- `capture_books`: one append per ticker through RecordOrderbook, with nothing to prove beyond that append.
- `implied_probability`, `mid`, spreads of one market, `yes_ask_sum`, `opposite`: single expressions.
- Market asks as independent fields: the overround theorems take every ask as derived from the opposite bid, as `derive_ask` computes it.
- Order book, scanner, backtest and execution packages: empty in the repository.
