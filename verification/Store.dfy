/** data/storage.py: reference tables that keep the latest row per key, time series that only grow,
    and a sweep written in one transaction. Any write may raise. */
module Store {
  import opened Results
  import opened Markets

  /** An ISO-8601 observation time: never the empty string. */
  type Time = s: string | s != "" witness "1970-01-01T00:00:00+00:00"

  /** The levels of one side of an order book, as (price, count). */
  type Levels = seq<(real, real)>

  datatype SeriesRow = SeriesRow(ticker: string, title: string, category: string,
                                 feeType: string, feeMultiplier: real)
  datatype EventRow = EventRow(eventTicker: string, seriesTicker: string, mutuallyExclusive: bool)
  datatype MarketRow = MarketRow(ticker: string, eventTicker: string, status: MarketStatus,
                                 notional: real, priceRanges: seq<PriceBand>)
  datatype QuoteRow = QuoteRow(ticker: string, capturedAt: Time, status: MarketStatus,
                               yesBid: real, yesAsk: real, noBid: real, noAsk: real, sizes: Sizes)
  datatype BookRow = BookRow(ticker: string, capturedAt: Time, yesBids: Levels, noBids: Levels,
                             useYesPrice: bool, source: string)
  datatype SystemRow = SystemRow(capturedAt: Time, note: Note)

  /** The operational events ingestion records, with their payloads; `Other` is any other kind. */
  datatype Note =
    | ExchangeInactive
    | InvariantViolation(ticker: string, yesBid: real, noBid: real, notional: real)
    | SweepComplete(events: nat, markets: nat, quotes: nat, crossedBooks: seq<string>,
                    inactiveShards: seq<int>)
    | Other(kind: string, detail: string)

  /** An order book as the exchange sends it: either array of either side may be missing. */
  datatype RawBook = RawBook(yesDollars: Option<Levels>, yes: Option<Levels>,
                             noDollars: Option<Levels>, no: Option<Levels>)

  /** A reference row and when it was last written. */
  datatype Stamped<+R> = Stamped(row: R, updatedAt: Time)

  datatype Tables = Tables(
    series: map<string, Stamped<SeriesRow>>,
    events: map<string, Stamped<EventRow>>,
    markets: map<string, Stamped<MarketRow>>,
    quotes: seq<QuoteRow>,
    books: seq<BookRow>,
    system: seq<SystemRow>)

  /** One SQL write. */
  datatype Write =
    | UpsertSeries(series: SeriesRow)
    | UpsertEvent(event: EventRow)
    | UpsertMarket(market: MarketRow)
    | InsertQuote(quote: QuoteRow)
    | InsertBook(book: BookRow)
    | InsertSystem(entry: SystemRow)

  /** The effect of one write made at `now`. */
  function Put(t: Tables, w: Write, now: Time): Tables {
    match w
    case UpsertSeries(r) => t.(series := t.series[r.ticker := Stamped(r, now)])
    case UpsertEvent(r) => t.(events := t.events[r.eventTicker := Stamped(r, now)])
    case UpsertMarket(r) => t.(markets := t.markets[r.ticker := Stamped(r, now)])
    case InsertQuote(r) => t.(quotes := t.quotes + [r])
    case InsertBook(r) => t.(books := t.books + [r])
    case InsertSystem(r) => t.(system := t.system + [r])
  }

  /** The writes in order, the i-th made at `clock(i)`. */
  function PutAll(t: Tables, ws: seq<Write>, clock: nat -> Time): Tables
    decreases |ws|
  {
    if ws == [] then t
    else Put(PutAll(t, ws[..|ws| - 1], clock), ws[|ws| - 1], clock(|ws| - 1))
  }

  function EventRowOf(e: NormalizedEvent): EventRow {
    EventRow(e.eventTicker, e.seriesTicker, e.mutuallyExclusive)
  }

  function MarketRowOf(m: NormalizedMarket): MarketRow {
    MarketRow(m.ticker, m.eventTicker, m.status, m.notional, m.priceRanges)
  }

  function QuoteRowOf(m: NormalizedMarket, capturedAt: Time): QuoteRow {
    QuoteRow(m.ticker, capturedAt, m.status, m.yesBid, m.yesAsk, m.noBid, m.noAsk, m.sizes)
  }

  /** A quote row is this observation of this market. */
  predicate QuoteShows(q: QuoteRow, m: NormalizedMarket, capturedAt: Time) {
    && q.ticker == m.ticker && q.capturedAt == capturedAt && q.status == m.status
    && q.yesBid == m.yesBid && q.yesAsk == m.yesAsk && q.noBid == m.noBid && q.noAsk == m.noAsk
    && q.sizes == m.sizes
  }

  /** A reference row is what this market, or this event, says of itself. */
  predicate MarketShows(r: MarketRow, m: NormalizedMarket) {
    && r.ticker == m.ticker && r.eventTicker == m.eventTicker && r.status == m.status
    && r.notional == m.notional && r.priceRanges == m.priceRanges
  }

  predicate EventShows(r: EventRow, e: NormalizedEvent) {
    && r.eventTicker == e.eventTicker && r.seriesTicker == e.seriesTicker
    && r.mutuallyExclusive == e.mutuallyExclusive
  }

  /** The given capture time, unless there is none or it is empty. */
  function CapturedAt(given: Option<string>, now: Time): Time {
    if given.Some? && given.value != "" then given.value else now
  }

  /** The first of the two arrays that holds a level. */
  function SideOf(dollars: Option<Levels>, cents: Option<Levels>): Levels {
    if dollars.Some? && dollars.value != [] then dollars.value
    else if cents.Some? then cents.value
    else []
  }

  /** The stored side is the dollar array if it holds a level, otherwise the other if it is there,
      otherwise empty. */
  ghost predicate SideShows(side: Levels, dollars: Option<Levels>, cents: Option<Levels>) {
    && (forall x: Levels :: dollars == Some(x) && |x| > 0 ==> side == x)
    && (dollars == None || dollars == Some([]) ==>
          (cents.None? ==> side == []) && (forall y: Levels :: cents == Some(y) ==> side == y))
  }

  // ---- the writes of a sweep ---------------------------------------------------------------

  function MarketWrites(m: NormalizedMarket, recordQuotes: bool, capturedAt: Time): seq<Write> {
    [UpsertMarket(MarketRowOf(m))] + if recordQuotes then [InsertQuote(QuoteRowOf(m, capturedAt))] else []
  }

  function MarketsWrites(ms: seq<NormalizedMarket>, recordQuotes: bool, capturedAt: Time): seq<Write>
    decreases |ms|
  {
    if ms == [] then []
    else MarketWrites(ms[0], recordQuotes, capturedAt) + MarketsWrites(ms[1..], recordQuotes, capturedAt)
  }

  function EventWrites(e: NormalizedEvent, recordQuotes: bool, capturedAt: Time): seq<Write> {
    [UpsertEvent(EventRowOf(e))] + MarketsWrites(e.markets, recordQuotes, capturedAt)
  }

  function SweepWrites(es: seq<NormalizedEvent>, recordQuotes: bool, capturedAt: Time): seq<Write>
    decreases |es|
  {
    if es == [] then []
    else
      EventWrites(es[0], recordQuotes, capturedAt) + SweepWrites(es[1..], recordQuotes, capturedAt)
  }

  /** Every market of the sweep, in the order it is written. */
  function MarketsOf(es: seq<NormalizedEvent>): seq<NormalizedMarket>
    decreases |es|
  {
    if es == [] then [] else es[0].markets + MarketsOf(es[1..])
  }

  // ---- the store ---------------------------------------------------------------------------

  /** What the connection holds: the tables as it sees them, and, inside a transaction, the
      committed tables it would roll back to. */
  datatype Contents = Contents(tables: Tables, begun: Option<Tables>) {
    /** What survives a crash now. */
    function Committed(): Tables {
      if begun.Some? then begun.value else tables
    }
  }

  /** How the environment lets a run of writes end. */
  datatype Fate =
    | Healthy
    | RaisesAt(write: nat)      // an Exception out of that write
    | InterruptedAt(write: nat) // a BaseException (KeyboardInterrupt, say) out of it
    | CommitRaises

  datatype StoreError = NestedTransaction | WriteRaised | Interrupted | CommitRaised

  /** How many of `n` writes go through. */
  function Completed(fate: Fate, n: nat): nat {
    if (fate.RaisesAt? || fate.InterruptedAt?) && fate.write < n then fate.write else n
  }

  /** How a sweep of `n` writes ends. */
  function Failing(fate: Fate, n: nat): Option<StoreError> {
    match fate
    case Healthy => None
    case RaisesAt(w) => if w < n then Some(WriteRaised) else None
    case InterruptedAt(w) => if w < n then Some(Interrupted) else None
    case CommitRaises => Some(CommitRaised)
  }

  /** What a transaction over these writes leaves behind. BEGIN inside a transaction raises and
      changes nothing; an Exception rolls back; anything else that stops the transaction leaves
      it open with what was written. */
  function Transact(c: Contents, ws: seq<Write>, clock: nat -> Time, fate: Fate): Contents {
    if c.begun.Some? then c else
    var done := PutAll(c.tables, ws[..Completed(fate, |ws|)], clock);
    match Failing(fate, |ws|)
    case None => Contents(done, None)
    case Some(WriteRaised) => c
    case Some(_) => Contents(done, Some(c.tables))
  }

  /** What one write on its own leaves behind: outside a transaction it commits by itself, and a
      write that raises changes nothing. */
  function Alone(c: Contents, w: Write, now: Time, raises: bool): Contents {
    if raises then c else Contents(Put(c.tables, w, now), c.begun)
  }

  class MarketDataStore {
    var series: map<string, Stamped<SeriesRow>>
    var events: map<string, Stamped<EventRow>>
    var markets: map<string, Stamped<MarketRow>>
    var quotes: seq<QuoteRow>
    var books: seq<BookRow>
    var system: seq<SystemRow>
    var begun: Option<Tables>

    function Held(): Tables
      reads this
    {
      Tables(series, events, markets, quotes, books, system)
    }

    function State(): Contents
      reads this
    {
      Contents(Held(), begun)
    }

    constructor ()
      ensures State() == Contents(Tables(map[], map[], map[], [], [], []), None)
    {
      series, events, markets := map[], map[], map[];
      quotes, books, system := [], [], [];
      begun := None;
    }

    /** One statement. */
    method Execute(w: Write, now: Time)
      modifies this
      ensures State() == Contents(Put(old(Held()), w, now), old(begun))
    {
      match w
      case UpsertSeries(r) => series := series[r.ticker := Stamped(r, now)];
      case UpsertEvent(r) => events := events[r.eventTicker := Stamped(r, now)];
      case UpsertMarket(r) => markets := markets[r.ticker := Stamped(r, now)];
      case InsertQuote(r) => quotes := quotes + [r];
      case InsertBook(r) => books := books + [r];
      case InsertSystem(r) => system := system + [r];
    }

    /** One statement on its own: upsert_series, upsert_event, upsert_market. */
    method WriteAlone(w: Write, now: Time, raises: bool) returns (r: Option<StoreError>)
      modifies this
      ensures State() == Alone(old(State()), w, now, raises)
      ensures r == if raises then Some(WriteRaised) else None
    {
      if raises {
        return Some(WriteRaised);
      }
      Execute(w, now);
      return None;
    }

    /** record_quote */
    method RecordQuote(m: NormalizedMarket, capturedAt: Option<string>, now: Time, raises: bool)
      returns (r: Option<StoreError>)
      modifies this
      ensures var row := QuoteRowOf(m, CapturedAt(capturedAt, now));
              quotes == if raises then old(quotes) else old(quotes) + [row]
      ensures !raises ==>
        && |quotes| == |old(quotes)| + 1 && old(quotes) <= quotes
        && QuoteShows(quotes[|old(quotes)|], m,
                      if capturedAt.None? || capturedAt.value == "" then now else capturedAt.value)
      ensures State() == old(State()).(tables := old(Held()).(quotes := quotes))
      ensures r == if raises then Some(WriteRaised) else None
    {
      r := WriteAlone(InsertQuote(QuoteRowOf(m, CapturedAt(capturedAt, now))), now, raises);
    }

    /** record_orderbook */
    method RecordOrderbook(ticker: string, book: RawBook, useYesPrice: bool, source: string,
                           capturedAt: Option<string>, now: Time, raises: bool)
      returns (r: Option<StoreError>)
      modifies this
      ensures var row := BookRow(ticker, CapturedAt(capturedAt, now), SideOf(book.yesDollars, book.yes),
                                 SideOf(book.noDollars, book.no), useYesPrice, source);
              books == if raises then old(books) else old(books) + [row]
      ensures !raises ==>
        && |books| == |old(books)| + 1 && old(books) <= books
        && var row := books[|old(books)|];
        && row.ticker == ticker && row.useYesPrice == useYesPrice && row.source == source
        && row.capturedAt == (if capturedAt.None? || capturedAt.value == "" then now else capturedAt.value)
        && SideShows(row.yesBids, book.yesDollars, book.yes)
        && SideShows(row.noBids, book.noDollars, book.no)
      ensures State() == old(State()).(tables := old(Held()).(books := books))
      ensures r == if raises then Some(WriteRaised) else None
    {
      var row := BookRow(ticker, CapturedAt(capturedAt, now), SideOf(book.yesDollars, book.yes),
                         SideOf(book.noDollars, book.no), useYesPrice, source);
      r := WriteAlone(InsertBook(row), now, raises);
    }

    /** record_system_event */
    method RecordSystemEvent(note: Note, now: Time, raises: bool) returns (r: Option<StoreError>)
      modifies this
      ensures State() == Alone(old(State()), InsertSystem(SystemRow(now, note)), now, raises)
      ensures r == if raises then Some(WriteRaised) else None
    {
      r := WriteAlone(InsertSystem(SystemRow(now, note)), now, raises);
    }

    /** ROLLBACK */
    method Rollback()
      requires begun.Some?
      modifies this
      ensures State() == Contents(old(begun).value, None)
    {
      var t := begun.value;
      series, events, markets := t.series, t.events, t.markets;
      quotes, books, system := t.quotes, t.books, t.system;
      begun := None;
    }

    /** The `k`-th statement of a transaction: it goes through, or raises and the transaction's
        `except Exception` rolls back, or is interrupted and nothing catches it. */
    method Perform(w: Write, k: nat, clock: nat -> Time, fate: Fate,
                   ghost start: Tables, ghost done: seq<Write>)
      returns (stopped: Option<StoreError>)
      requires State() == Contents(PutAll(start, done, clock), Some(start)) && k == |done|
      modifies this
      ensures Wrote(start, done, [w], clock, fate, stopped, State())
    {
      PutOneMore(start, done, w, clock);
      assert (done + [w])[..k] == done;
      hide Put, PutAll;
      if fate == RaisesAt(k) {
        Rollback();
        return Some(WriteRaised);
      }
      if fate == InterruptedAt(k) {
        return Some(Interrupted);
      }
      Execute(w, clock(k));
      return None;
    }

    /** One market of a sweep. */
    method WriteMarket(m: NormalizedMarket, recordQuotes: bool, capturedAt: Time, k: nat,
                       clock: nat -> Time, fate: Fate, ghost start: Tables, ghost done: seq<Write>)
      returns (stopped: Option<StoreError>)
      requires State() == Contents(PutAll(start, done, clock), Some(start)) && k == |done|
      modifies this
      ensures Wrote(start, done, MarketWrites(m, recordQuotes, capturedAt), clock, fate, stopped, State())
    {
      hide Wrote;
      var upsert, quote := UpsertMarket(MarketRowOf(m)), InsertQuote(QuoteRowOf(m, capturedAt));
      stopped := Perform(upsert, k, clock, fate, start, done);
      if recordQuotes {
        if stopped.None? {
          WroteAll(start, done, [upsert], clock, fate, State());
          ghost var between := State();
          stopped := Perform(quote, k + 1, clock, fate, start, done + [upsert]);
          WroteThen(start, done, [upsert], [quote], clock, fate, between, stopped, State());
        } else {
          WroteLess(start, done, [upsert], [quote], clock, fate, stopped, State());
        }
      } else {
        assert [upsert] + [] == [upsert];
      }
    }

    /** One event of a sweep, with its markets; `n` counts the quotes it records, and `next` is the
        number of the write that follows. */
    method WriteEvent(e: NormalizedEvent, recordQuotes: bool, capturedAt: Time, k: nat,
                      clock: nat -> Time, fate: Fate, ghost start: Tables, ghost done: seq<Write>)
      returns (stopped: Option<StoreError>, n: nat, next: nat)
      requires State() == Contents(PutAll(start, done, clock), Some(start)) && k == |done|
      modifies this
      ensures Wrote(start, done, EventWrites(e, recordQuotes, capturedAt), clock, fate, stopped, State())
      ensures stopped.None? ==> n == if recordQuotes then |e.markets| else 0
      ensures stopped.None? ==> next == k + |EventWrites(e, recordQuotes, capturedAt)|
    {
      hide Wrote, PutAll;
      n, next := 0, k + 1;
      var upsert := UpsertEvent(EventRowOf(e));
      stopped := Perform(upsert, k, clock, fate, start, done);
      ghost var ws := [upsert];
      var i := 0;
      assert e.markets[0..] == e.markets;
      while i < |e.markets| && stopped.None?
        invariant 0 <= i <= |e.markets|
        invariant EventWrites(e, recordQuotes, capturedAt)
               == ws + MarketsWrites(e.markets[i..], recordQuotes, capturedAt)
        invariant Wrote(start, done, ws, clock, fate, stopped, State())
        invariant n == if recordQuotes then i else 0
        invariant next == k + |ws|
        decreases |e.markets| - i, stopped.None?
      {
        var m := e.markets[i];
        ghost var mine := MarketWrites(m, recordQuotes, capturedAt);
        assert e.markets[i..][0] == m && e.markets[i..][1..] == e.markets[i + 1..];
        WroteAll(start, done, ws, clock, fate, State());
        ghost var between := State();
        stopped := WriteMarket(m, recordQuotes, capturedAt, next, clock, fate, start, done + ws);
        WroteThen(start, done, ws, mine, clock, fate, between, stopped, State());
        ws := ws + mine;
        i, next := i + 1, next + 1;
        if recordQuotes {
          n, next := n + 1, next + 1;
        }
      }
      if stopped.Some? {
        WroteLess(start, done, ws, MarketsWrites(e.markets[i..], recordQuotes, capturedAt),
                  clock, fate, stopped, State());
      } else {
        assert ws + [] == ws;
      }
    }

    /** The body of the sweep's transaction. */
    method WriteEvents(es: seq<NormalizedEvent>, recordQuotes: bool, capturedAt: Time,
                       clock: nat -> Time, fate: Fate, ghost start: Tables)
      returns (stopped: Option<StoreError>, nEvents: nat, nQuotes: nat)
      requires State() == Contents(start, Some(start))
      modifies this
      ensures Wrote(start, [], SweepWrites(es, recordQuotes, capturedAt), clock, fate, stopped, State())
      ensures stopped.None? ==> nEvents == |es| && nQuotes == if recordQuotes then |MarketsOf(es)| else 0
    {
      hide Wrote, PutAll, EventWrites, SweepWrites, MarketsOf;
      SweepEnds(es, recordQuotes, capturedAt);
      WroteNothing(start, clock, fate);
      ghost var all, done := SweepWrites(es, recordQuotes, capturedAt), [];
      var k := 0;
      stopped, nEvents, nQuotes := None, 0, 0;
      while nEvents < |es| && stopped.None?
        invariant nEvents <= |es|
        invariant all == done + SweepWrites(es[nEvents..], recordQuotes, capturedAt)
        invariant Wrote(start, [], done, clock, fate, stopped, State())
        invariant stopped.None? ==> k == |done|
        invariant stopped.None? && recordQuotes ==> |MarketsOf(es)| == nQuotes + |MarketsOf(es[nEvents..])|
        invariant stopped.None? && !recordQuotes ==> nQuotes == 0
        decreases |es| - nEvents
      {
        var e := es[nEvents];
        ghost var mine := EventWrites(e, recordQuotes, capturedAt);
        SweepUnfolds(es, nEvents, recordQuotes, capturedAt);
        WroteAll(start, [], done, clock, fate, State());
        ghost var between := State();
        assert [] + done == done;
        var n;
        stopped, n, k := WriteEvent(e, recordQuotes, capturedAt, k, clock, fate, start, done);
        WroteThen(start, [], done, mine, clock, fate, between, stopped, State());
        done := done + mine;
        nEvents, nQuotes := nEvents + 1, nQuotes + n;
      }
      WroteLess(start, [], done, SweepWrites(es[nEvents..], recordQuotes, capturedAt), clock, fate, stopped, State());
    }

    /** record_snapshot_sweep: upserts every event and market and appends a quote for each market,
        all under one capture time, all in one transaction. */
    method RecordSnapshotSweep(es: seq<NormalizedEvent>, recordQuotes: bool,
                               capturedAt: Time, clock: nat -> Time, fate: Fate)
      returns (r: Result<(nat, nat), StoreError>)
      modifies this
      ensures State() == Transact(old(State()), SweepWrites(es, recordQuotes, capturedAt), clock, fate)
      ensures r == SweepResult(old(State()), es, recordQuotes, capturedAt, fate)
    {
      if begun.Some? {
        return Failure(NestedTransaction);
      }
      ghost var start, all := Held(), SweepWrites(es, recordQuotes, capturedAt);
      begun := Some(Held());
      var stopped, nEvents, nQuotes := WriteEvents(es, recordQuotes, capturedAt, clock, fate, start);
      hide Wrote, PutAll, SweepWrites, MarketsOf, Transact, Failing;
      if stopped.Some? {
        StoppedTransaction(start, all, clock, fate, stopped, State());
        return Failure(stopped.value);
      }
      RanThrough(start, all, clock, fate, State());
      if fate.CommitRaises? {
        return Failure(CommitRaised);
      }
      begun := None;
      return Success((nEvents, nQuotes));
    }
  }

  /** What stops write number `k`. */
  function Stops(fate: Fate, k: nat): Option<StoreError> {
    if fate == RaisesAt(k) then Some(WriteRaised)
    else if fate == InterruptedAt(k) then Some(Interrupted)
    else None
  }

  /** What a sweep returns: how many events and quotes it wrote, or what stopped it. */
  function SweepResult(c: Contents, es: seq<NormalizedEvent>, recordQuotes: bool, capturedAt: Time, fate: Fate)
    : Result<(nat, nat), StoreError>
  {
    if c.begun.Some? then Failure(NestedTransaction) else
    match Failing(fate, |SweepWrites(es, recordQuotes, capturedAt)|)
    case Some(error) => Failure(error)
    case None => Success((|es|, if recordQuotes then |MarketsOf(es)| else 0))
  }

  lemma PutOneMore(t: Tables, done: seq<Write>, w: Write, clock: nat -> Time)
    ensures PutAll(t, done + [w], clock) == Put(PutAll(t, done, clock), w, clock(|done|))
  {
    assert (done + [w])[..|done|] == done;
  }

  /** What is left after write number |done| stopped a transaction that had made `done`. */
  function AfterStop(start: Tables, done: seq<Write>, clock: nat -> Time, error: StoreError): Contents {
    if error == WriteRaised then Contents(start, None)
    else Contents(PutAll(start, done, clock), Some(start))
  }

  /** Inside a transaction begun at `start`, after `done` went through, `ws` was attempted: all of
      it went through, or it stopped at the write fate says and left `state`. */
  ghost predicate Wrote(start: Tables, done: seq<Write>, ws: seq<Write>, clock: nat -> Time, fate: Fate,
                        stopped: Option<StoreError>, state: Contents)
  {
    match stopped
    case None =>
      && state == Contents(PutAll(start, done + ws, clock), Some(start))
      && (forall j :: |done| <= j < |done + ws| ==> Stops(fate, j).None?)
    case Some(error) =>
      exists j :: |done| <= j < |done + ws| && Stops(fate, j) == stopped
                  && state == AfterStop(start, (done + ws)[..j], clock, error)
  }

  lemma WroteNothing(start: Tables, clock: nat -> Time, fate: Fate)
    ensures Wrote(start, [], [], clock, fate, None, Contents(start, Some(start)))
  {
    var none: seq<Write> := [];
    assert none + none == none;
  }

  lemma WroteAll(start: Tables, done: seq<Write>, ws: seq<Write>, clock: nat -> Time, fate: Fate, state: Contents)
    requires Wrote(start, done, ws, clock, fate, None, state)
    ensures state == Contents(PutAll(start, done + ws, clock), Some(start))
  {}

  lemma WroteThen(start: Tables, done: seq<Write>, xs: seq<Write>, ys: seq<Write>, clock: nat -> Time, fate: Fate,
                  between: Contents, stopped: Option<StoreError>, state: Contents)
    requires Wrote(start, done, xs, clock, fate, None, between)
    requires Wrote(start, done + xs, ys, clock, fate, stopped, state)
    ensures Wrote(start, done, xs + ys, clock, fate, stopped, state)
  {
    assert done + xs + ys == done + (xs + ys);
  }

  /** Where a transaction stopped, what was to follow does not matter. */
  lemma WroteLess(start: Tables, done: seq<Write>, xs: seq<Write>, ys: seq<Write>, clock: nat -> Time, fate: Fate,
                  stopped: Option<StoreError>, state: Contents)
    requires Wrote(start, done, xs, clock, fate, stopped, state)
    requires stopped.Some? || ys == []
    ensures Wrote(start, done, xs + ys, clock, fate, stopped, state)
  {
    if stopped.Some? {
      var j :| |done| <= j < |done + xs| && Stops(fate, j) == stopped
               && state == AfterStop(start, (done + xs)[..j], clock, stopped.value);
      assert (done + (xs + ys))[..j] == (done + xs)[..j];
    } else {
      assert xs + ys == xs;
    }
  }

  lemma SweepUnfolds(es: seq<NormalizedEvent>, n: nat, recordQuotes: bool, capturedAt: Time)
    requires n < |es|
    ensures SweepWrites(es[n..], recordQuotes, capturedAt)
            == EventWrites(es[n], recordQuotes, capturedAt) + SweepWrites(es[n + 1..], recordQuotes, capturedAt)
    ensures |MarketsOf(es[n..])| == |es[n].markets| + |MarketsOf(es[n + 1..])|
  {
    assert es[n..][0] == es[n] && es[n..][1..] == es[n + 1..];
  }

  lemma SweepEnds(es: seq<NormalizedEvent>, recordQuotes: bool, capturedAt: Time)
    ensures SweepWrites(es[0..], recordQuotes, capturedAt) == SweepWrites(es, recordQuotes, capturedAt)
    ensures |MarketsOf(es[0..])| == |MarketsOf(es)|
    ensures SweepWrites(es[|es|..], recordQuotes, capturedAt) == [] && MarketsOf(es[|es|..]) == []
  {
    assert es[0..] == es;
  }

  lemma StoppedTransaction(start: Tables, all: seq<Write>, clock: nat -> Time, fate: Fate,
                           stopped: Option<StoreError>, state: Contents)
    requires Wrote(start, [], all, clock, fate, stopped, state) && stopped.Some?
    ensures Failing(fate, |all|) == stopped
    ensures Transact(Contents(start, None), all, clock, fate) == state
  {
    assert [] + all == all;
  }

  lemma RanThrough(start: Tables, all: seq<Write>, clock: nat -> Time, fate: Fate, state: Contents)
    requires Wrote(start, [], all, clock, fate, None, state)
    ensures Failing(fate, |all|) == if fate.CommitRaises? then Some(CommitRaised) else None
    ensures Transact(Contents(start, None), all, clock, fate)
            == Contents(state.tables, if fate.CommitRaises? then Some(start) else None)
    ensures state.begun == Some(start)
  {
    assert [] + all == all;
    assert all[..|all|] == all;
    assert fate.RaisesAt? ==> Stops(fate, fate.write).Some?;
    assert fate.InterruptedAt? ==> Stops(fate, fate.write).Some?;
  }
}
