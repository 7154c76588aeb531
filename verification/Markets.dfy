/** markets/models.py: price grids, markets, and the events that group them. */
module Markets {
  import opened Results
  import opened RealArith
  import opened Contracts
  import opened Filtering

  datatype MarketStatus =
    | Initialized | Active | Inactive | Closed | Determined | Disputed | Amended | Finalized
  {
    predicate IsTradeable() {
      Active?
    }
  }

  datatype PriceBand = PriceBand(start: real, end: real, step: real) {
    predicate Contains(price: real) {
      start <= price <= end
    }

    predicate IsOnGrid(price: real) {
      if !Contains(price) || step <= 0.0 then false else IsWhole(Over(price - start, step))
    }
  }

  /** x % 1 == 0 */
  predicate IsWhole(x: real) {
    x.Floor as real == x
  }

  /** The quantities a quote row carries besides its four prices. */
  datatype Sizes = Sizes(yesBidSize: real, yesAskSize: real, lastPrice: real,
                         volume: real, openInterest: real, liquidity: real)

  datatype NormalizedMarket = NormalizedMarket(
    ticker: string,
    eventTicker: string,
    status: MarketStatus,
    notional: real,
    yesBid: real,
    yesAsk: real,
    noBid: real,
    noAsk: real,
    sizes: Sizes,
    priceRanges: seq<PriceBand>)
  {
    predicate BookIsUncrossed() {
      yesBid + noBid <= notional
    }

    function TickAt(price: real): Option<real> {
      match FirstContaining(priceRanges, price)
      case Some(i) => Some(priceRanges[i].step)
      case None => None
    }

    predicate IsValidPrice(price: real) {
      if priceRanges == [] then 0.0 <= price <= notional
      else exists i :: 0 <= i < |priceRanges| && priceRanges[i].IsOnGrid(price)
    }
  }

  /** The first band that contains the price: the one `tick_at` reads its tick from. */
  function FirstContaining(bands: seq<PriceBand>, price: real): (r: Option<nat>)
    ensures r.Some? ==>
      && r.value < |bands| && bands[r.value].Contains(price)
      && (forall j :: 0 <= j < r.value ==> !bands[j].Contains(price))
    ensures r.None? ==> forall j :: 0 <= j < |bands| ==> !bands[j].Contains(price)
    decreases |bands|
  {
    if bands == [] then None
    else if bands[0].Contains(price) then Some(0)
    else
      match FirstContaining(bands[1..], price)
      case Some(i) =>
        assert forall j :: 1 <= j <= i ==> bands[j] == bands[1..][j - 1];
        Some(i + 1)
      case None =>
        assert forall j :: 1 <= j < |bands| ==> bands[j] == bands[1..][j - 1];
        None
  }

  // ---- the price grid ----------------------------------------------------------------------

  /** Bands in ascending order that share at most endpoints, each with a positive tick. */
  predicate Ordered(bands: seq<PriceBand>) {
    && (forall i :: 0 <= i < |bands| ==> bands[i].start <= bands[i].end && bands[i].step > 0.0)
    && (forall i, j :: 0 <= i < j < |bands| ==> bands[i].end <= bands[j].start)
  }

  /** On the grid is: in the band, a whole number of ticks above its start. */
  lemma OnGridIff(band: PriceBand, price: real)
    ensures band.IsOnGrid(price) <==>
              && band.step > 0.0 && band.start <= price <= band.end
              && exists ticks: int :: price == TicksUp(band, ticks)
  {
    if band.step > 0.0 {
      DivTimes(price - band.start, band.step);
      var q := Over(price - band.start, band.step);
      if IsWhole(q) {
        assert price == TicksUp(band, q.Floor);
      }
      if ticks: int :| price == TicksUp(band, ticks) {
        OverUnique(price - band.start, band.step, ticks as real);
        FloorIs(ticks, q);
      }
    }
  }

  function TicksUp(band: PriceBand, ticks: int): real {
    band.start + ticks as real * band.step
  }

  /** A market without bands accepts every price up to its notional, and has no tick anywhere. */
  lemma WithoutBands(m: NormalizedMarket, price: real)
    requires m.priceRanges == []
    ensures m.IsValidPrice(price) <==> 0.0 <= price <= m.notional
    ensures m.TickAt(price).None?
  {}

  /** Wherever a later band starts where this one ends, that end is on this band's own grid. */
  predicate JoinsOnGrid(bands: seq<PriceBand>) {
    forall i, j :: 0 <= i < j < |bands| && bands[i].end == bands[j].start ==>
      bands[i].IsOnGrid(bands[i].end)
  }

  /** The price is on the grid of the one band its tick is read from. */
  predicate OnItsTickGrid(bands: seq<PriceBand>, price: real) {
    var first := FirstContaining(bands, price);
    first.Some? && bands[first.value].IsOnGrid(price)
  }

  lemma StartIsOnGrid(band: PriceBand)
    requires band.start <= band.end && band.step > 0.0
    ensures band.IsOnGrid(band.start)
  {
    OverLaws(0.0, 0.0, band.step);
  }

  /** `is_valid_price` asks any band, `tick_at` only the first that contains the price. On ordered
      bands the two agree about every price exactly when the joints are on the grid. */
  lemma AnyBandIsFirstBandIff(m: NormalizedMarket)
    requires m.priceRanges != [] && Ordered(m.priceRanges)
    ensures (forall price: real :: m.IsValidPrice(price) <==> OnItsTickGrid(m.priceRanges, price))
            <==> JoinsOnGrid(m.priceRanges)
  {
    var bands := m.priceRanges;
    if JoinsOnGrid(bands) {
      forall price: real ensures m.IsValidPrice(price) <==> OnItsTickGrid(bands, price) {
        if m.IsValidPrice(price) {
          var j :| 0 <= j < |bands| && bands[j].IsOnGrid(price);
          assert bands[j].Contains(price);
          var i := FirstContaining(bands, price).value;
          if i < j { assert bands[i].end == bands[j].start == price; }
        }
      }
    }
    if forall price: real :: m.IsValidPrice(price) <==> OnItsTickGrid(bands, price) {
      forall i, j | 0 <= i < j < |bands| && bands[i].end == bands[j].start
        ensures bands[i].IsOnGrid(bands[i].end)
      {
        var price := bands[i].end;
        StartIsOnGrid(bands[j]);
        assert m.IsValidPrice(price);
        assert OnItsTickGrid(bands, price);
        assert bands[i].Contains(price);
        var first := FirstContaining(bands, price).value;
        if first < i {
          assert bands[i].start == price;
          StartIsOnGrid(bands[i]);
        }
      }
    }
  }

  /** Every valid price has a tick, except in a market that lists no bands, where none has. */
  lemma ValidPriceHasTick(m: NormalizedMarket, price: real)
    requires m.IsValidPrice(price)
    ensures m.TickAt(price).Some? <==> m.priceRanges != []
  {
    if m.priceRanges != [] {
      var i :| 0 <= i < |m.priceRanges| && m.priceRanges[i].IsOnGrid(price);
      assert m.priceRanges[i].Contains(price);
    }
  }

  lemma WholeSteps(x: real, y: real)
    requires IsWhole(x) && IsWhole(y) && x < y
    ensures x + 1.0 <= y && IsWhole(x + 1.0)
  {
    IntOrder(x.Floor, y.Floor);
    IntSuccessor(x.Floor, y.Floor);
    FloorIs(x.Floor + 1, x + 1.0);
  }

  lemma IntOrder(m: int, n: int)
    requires m as real < n as real
    ensures m < n
  {}

  lemma IntSuccessor(m: int, n: int)
    requires m < n
    ensures m as real + 1.0 == (m + 1) as real <= n as real
  {}

  lemma FloorIs(m: int, x: real)
    requires m as real == x
    ensures x.Floor == m
  {}

  /** One tick up from a valid price below the end of its band is a valid price in that band, when
      the band ends on its own grid. */
  lemma NextTickIsValid(m: NormalizedMarket, price: real)
    requires OnItsTickGrid(m.priceRanges, price)
    requires var band := m.priceRanges[FirstContaining(m.priceRanges, price).value];
             price < band.end && band.IsOnGrid(band.end)
    ensures m.TickAt(price).Some? && m.IsValidPrice(price + m.TickAt(price).value)
    ensures var band := m.priceRanges[FirstContaining(m.priceRanges, price).value];
            band.IsOnGrid(price + m.TickAt(price).value)
  {
    var band := m.priceRanges[FirstContaining(m.priceRanges, price).value];
    hide Over;
    var up := price + band.step;
    OverLaws(price - band.start, band.step, band.step);
    OverLaws(price - band.start, band.end - band.start, band.step);
    OverLaws(band.end - band.start, up - band.start, band.step);
    TimesLaws(0.0, 0.0, band.step);
    OverUnique(band.step, band.step, 1.0);
    WholeSteps(Over(price - band.start, band.step), Over(band.end - band.start, band.step));
    assert up - band.start == price - band.start + band.step;
    assert band.IsOnGrid(up);
  }

  /** `tick_at` answers for a price off the grid too. It gives no tick to every price that is not
      valid, as its documentation says, exactly when no band is longer than a point. */
  lemma OffGridPricesHaveTicks(m: NormalizedMarket)
    requires Ordered(m.priceRanges)
    ensures (forall price: real :: m.TickAt(price).Some? ==> m.IsValidPrice(price))
            <==> forall i :: 0 <= i < |m.priceRanges| ==> m.priceRanges[i].start == m.priceRanges[i].end
  {
    var bands := m.priceRanges;
    if i :| 0 <= i < |bands| && bands[i].start != bands[i].end {
      var price := BetweenTicks(bands, i);
      assert m.TickAt(price).Some? && !m.IsValidPrice(price);
    } else {
      forall price: real | m.TickAt(price).Some? ensures m.IsValidPrice(price) {
        var first := FirstContaining(bands, price).value;
        assert bands[first].start == price;
        StartIsOnGrid(bands[first]);
      }
    }
  }

  /** A price inside band `i`, and in no other, that is not on its grid. */
  lemma BetweenTicks(bands: seq<PriceBand>, i: nat) returns (price: real)
    requires Ordered(bands) && i < |bands| && bands[i].start != bands[i].end
    ensures bands[i].Contains(price)
    ensures forall j :: 0 <= j < |bands| ==> !bands[j].IsOnGrid(price)
  {
    var band := bands[i];
    var up := if band.step <= band.end - band.start then band.step / 2.0 else (band.end - band.start) / 2.0;
    price := band.start + up;
    OverLaws(0.0, up, band.step);
    OverLaws(up, band.step, band.step);
    TimesLaws(1.0, 0.0, band.step);
    OverUnique(band.step, band.step, 1.0);
    FractionIsNotWhole(Over(up, band.step));
    assert price - band.start == up;
    hide Over;
    forall j | 0 <= j < |bands| ensures !bands[j].IsOnGrid(price) {
      if j != i { assert !bands[j].Contains(price); }
    }
  }

  lemma FractionIsNotWhole(x: real)
    requires 0.0 < x < 1.0
    ensures !IsWhole(x)
  {}

  /** A cent grid gives a tick to half a cent, which it does not accept. */
  lemma HalfCentHasATick(m: NormalizedMarket)
    requires m.priceRanges == [PriceBand(0.0, 1.0, 0.01)]
    ensures m.TickAt(0.005) == Some(0.01) && !m.IsValidPrice(0.005)
  {
    OverUnique(0.005, 0.01, 0.5);
    FractionIsNotWhole(0.5);
  }

  // ---- events ------------------------------------------------------------------------------

  datatype NormalizedEvent = NormalizedEvent(
    eventTicker: string,
    seriesTicker: string,
    mutuallyExclusive: bool,
    markets: seq<NormalizedMarket>)
  {
    /** Never Partition: the API publishes "at most one", not "exactly one". */
    function Exclusivity(): Exclusivity {
      if mutuallyExclusive then MutuallyExclusive else Unconstrained
    }

    function ActiveMarkets(): seq<NormalizedMarket> {
      ActiveOf(markets)
    }

    function YesBidSum(): real {
      SumBids(ActiveMarkets())
    }
  }

  /** What the API's flag proves about how an event may settle, and no more: with it at most one
      YES, without it nothing. */
  lemma FlagProves(e: NormalizedEvent, st: Settlement)
    ensures Permits(e.Exclusivity(), st) <==> (e.mutuallyExclusive ==> CountYes(st) <= 1)
  {
    assert CountYes([]) == 0;
    assert CountYes([true, true]) == 1 + CountYes([true, true][1..]);
    assert [true, true][1..] == [true];
  }

  function ActiveOf(markets: seq<NormalizedMarket>): seq<NormalizedMarket>
    decreases |markets|
  {
    if markets == [] then []
    else (if markets[0].status.IsTradeable() then [markets[0]] else []) + ActiveOf(markets[1..])
  }

  /** Which markets of an event are active, leg by leg. */
  function ActiveMask(markets: seq<NormalizedMarket>): seq<bool> {
    seq(|markets|, i requires 0 <= i < |markets| => markets[i].status.IsTradeable())
  }

  function SumBids(markets: seq<NormalizedMarket>): real
    decreases |markets|
  {
    if markets == [] then 0.0 else markets[0].yesBid + SumBids(markets[1..])
  }

  const ACTIVE: NormalizedMarket -> bool := (m: NormalizedMarket) => m.status == Active

  lemma ActiveUnfolds(markets: seq<NormalizedMarket>, st: Settlement)
    requires markets != [] && |st| == |markets|
    ensures var m, rest := markets[0], markets[1..];
            var kept, kept' := Kept(st, ActiveMask(markets)), Kept(st[1..], ActiveMask(rest));
            if ACTIVE(m) then ActiveOf(markets) == [m] + ActiveOf(rest) && kept == [st[0]] + kept'
            else ActiveOf(markets) == ActiveOf(rest) && kept == kept'
  {
    assert ActiveMask(markets)[1..] == ActiveMask(markets[1..]);
  }

  lemma ActiveStep(markets: seq<NormalizedMarket>, st: Settlement, at: seq<nat>) returns (at': seq<nat>)
    requires markets != [] && |st| == |markets| && Picks(markets[1..], ACTIVE, at)
    requires Reads(ActiveOf(markets[1..]), markets[1..], at)
    requires Reads(Kept(st[1..], ActiveMask(markets[1..])), st[1..], at)
    ensures Picks(markets, ACTIVE, at')
    ensures Reads(ActiveOf(markets), markets, at') && Reads(Kept(st, ActiveMask(markets)), st, at')
  {
    var m, rest := markets[0], markets[1..];
    var kept, kept' := Kept(st, ActiveMask(markets)), Kept(st[1..], ActiveMask(rest));
    ActiveUnfolds(markets, st);
    PicksBound(rest, ACTIVE, at);
    hide ActiveOf, Kept, ActiveMask;
    if ACTIVE(m) {
      at' := Prefixed(at);
      PicksKept(markets, m, rest, ACTIVE, at);
      hide Picks, Prefixed, Reads;
      ReadsKept(ActiveOf(markets), m, ActiveOf(rest), markets, rest, at);
      ReadsKept(kept, st[0], kept', st, st[1..], at);
    } else {
      at' := Shifted(at);
      PicksDropped(markets, m, rest, ACTIVE, at);
      hide Picks, Shifted, Reads;
      ReadsDropped(ActiveOf(rest), markets, rest, at);
      ReadsDropped(kept', st, st[1..], at);
    }
  }

  /** The active markets are the active ones, in order, and a settlement restricted to the active
      mask is how exactly those resolved, leg by leg. */
  lemma {:induction false} ActiveLegsAreKept(markets: seq<NormalizedMarket>, st: Settlement)
    requires |st| == |markets|
    ensures exists at: seq<nat> ::
              && Picks(markets, ACTIVE, at)
              && Reads(ActiveOf(markets), markets, at)
              && Reads(Kept(st, ActiveMask(markets)), st, at)
    decreases |markets|
  {
    if markets == [] {
      assert Picks(markets, ACTIVE, []);
      assert Reads(ActiveOf(markets), markets, []) && Reads(Kept(st, ActiveMask(markets)), st, []);
    } else {
      ActiveLegsAreKept(markets[1..], st[1..]);
      var at: seq<nat> :| Picks(markets[1..], ACTIVE, at) && Reads(ActiveOf(markets[1..]), markets[1..], at)
                          && Reads(Kept(st[1..], ActiveMask(markets[1..])), st[1..], at);
      hide ActiveOf, Kept, ActiveMask;
      var at' := ActiveStep(markets, st, at);
    }
  }

  /** The active markets are the one list that holds them in order, each as often as it occurs. */
  lemma ActiveAre(markets: seq<NormalizedMarket>, active: seq<NormalizedMarket>)
    ensures Filters(active, markets, ACTIVE) <==> active == ActiveOf(markets)
  {
    ActiveLegsAreKept(markets, ActiveMask(markets));
    assert Filters(ActiveOf(markets), markets, ACTIVE);
    hide Filters, ActiveOf;
    if Filters(active, markets, ACTIVE) {
      FiltersUnique(active, ActiveOf(markets), markets, ACTIVE);
    }
  }

  lemma ActiveLegsAreAsMany(markets: seq<NormalizedMarket>, st: Settlement)
    requires |st| == |markets|
    ensures |Kept(st, ActiveMask(markets))| == |ActiveOf(markets)|
  {
    ActiveLegsAreKept(markets, st);
  }
}
