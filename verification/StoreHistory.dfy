/** What holds of the store over whole histories of calls, and what one sweep does to each table. */
module StoreHistory {
  import opened Results
  import opened Markets
  import opened Store

  // ---- growth ------------------------------------------------------------------------------

  /** No observation of `a` is lost or changed in `b`, and no reference key disappears. */
  ghost predicate Grows(a: Tables, b: Tables) {
    && a.quotes <= b.quotes && a.books <= b.books && a.system <= b.system
    && a.series.Keys <= b.series.Keys && a.events.Keys <= b.events.Keys && a.markets.Keys <= b.markets.Keys
  }

  lemma GrowthComposes(a: Tables, b: Tables, c: Tables)
    requires Grows(a, b) && Grows(b, c)
    ensures Grows(a, c)
  {}

  lemma {:induction false} WritesGrow(t: Tables, ws: seq<Write>, clock: nat -> Time)
    ensures Grows(t, PutAll(t, ws, clock))
    decreases |ws|
  {
    if ws == [] {
    } else {
      WritesGrow(t, ws[..|ws| - 1], clock);
    }
  }

  // ---- histories ---------------------------------------------------------------------------

  /** A call on the store, with what the environment does during it. */
  datatype Call =
    | Single(write: Write, now: Time, raises: bool)
    | Sweep(events: seq<NormalizedEvent>, recordQuotes: bool, capturedAt: Time, clock: nat -> Time, fate: Fate)

  function After(c: Contents, call: Call): Contents {
    match call
    case Single(w, now, raises) => Alone(c, w, now, raises)
    case Sweep(es, recordQuotes, capturedAt, clock, fate) =>
      Transact(c, SweepWrites(es, recordQuotes, capturedAt), clock, fate)
  }

  function History(c: Contents, calls: seq<Call>): Contents
    decreases |calls|
  {
    if calls == [] then c else After(History(c, calls[..|calls| - 1]), calls[|calls| - 1])
  }

  /** How many statements a sweep makes: one per event, and one or two per market. */
  function Statements(es: seq<NormalizedEvent>, recordQuotes: bool): nat {
    |es| + (if recordQuotes then 2 else 1) * |MarketsOf(es)|
  }

  /** The environment stops a sweep of these events. */
  predicate Hits(fate: Fate, es: seq<NormalizedEvent>, recordQuotes: bool) {
    match fate
    case Healthy => false
    case RaisesAt(w) => w < Statements(es, recordQuotes)
    case InterruptedAt(w) => w < Statements(es, recordQuotes)
    case CommitRaises => true
  }

  /** What wedges a store: a sweep interrupted at one of its statements, or a COMMIT that fails. */
  predicate Wedges(call: Call) {
    && call.Sweep?
    && !call.fate.RaisesAt? && Hits(call.fate, call.events, call.recordQuotes)
  }

  lemma {:induction false} MarketStatements(ms: seq<NormalizedMarket>, recordQuotes: bool, capturedAt: Time)
    ensures |MarketsWrites(ms, recordQuotes, capturedAt)| == (if recordQuotes then 2 else 1) * |ms|
    decreases |ms|
  {
    if ms == [] {
    } else {
      MarketStatements(ms[1..], recordQuotes, capturedAt);
    }
  }

  lemma {:induction false} StatementsAre(es: seq<NormalizedEvent>, recordQuotes: bool, capturedAt: Time)
    ensures |SweepWrites(es, recordQuotes, capturedAt)| == Statements(es, recordQuotes)
    decreases |es|
  {
    if es == [] {
    } else {
      MarketStatements(es[0].markets, recordQuotes, capturedAt);
      StatementsAre(es[1..], recordQuotes, capturedAt);
    }
  }

  lemma CallGrows(c: Contents, call: Call)
    ensures Grows(c.Committed(), After(c, call).Committed())
  {
    if call.Sweep? {
      var ws := SweepWrites(call.events, call.recordQuotes, call.capturedAt);
      WritesGrow(c.tables, ws[..Completed(call.fate, |ws|)], call.clock);
    }
  }

  /** Over any history at all, failed, interrupted and wedged calls included, what a crash would
      leave behind only grows. */
  lemma {:induction false} HistoryOnlyGrows(c: Contents, calls: seq<Call>, more: seq<Call>)
    ensures Grows(History(c, calls).Committed(), History(c, calls + more).Committed())
    decreases |more|
  {
    if more == [] {
      assert calls + more == calls;
    } else {
      var more' := more[..|more| - 1];
      assert (calls + more)[..|calls + more| - 1] == calls + more';
      HistoryOnlyGrows(c, calls, more');
      CallGrows(History(c, calls + more'), more[|more| - 1]);
      GrowthComposes(History(c, calls).Committed(), History(c, calls + more').Committed(),
                     History(c, calls + more).Committed());
    }
  }

  // ---- failure -----------------------------------------------------------------------------

  /** A sweep fails exactly when the environment stops it, and then commits nothing. The connection
      itself is back where it was exactly when what stopped it was an Exception raised by a write;
      otherwise the transaction stays open, and the rows written so far stay visible on this
      connection. */
  lemma FailedSweepCommitsNothing(c: Contents, es: seq<NormalizedEvent>, recordQuotes: bool, capturedAt: Time,
                                  clock: nat -> Time, fate: Fate)
    requires c.begun.None?
    ensures var ws := SweepWrites(es, recordQuotes, capturedAt);
            var after := Transact(c, ws, clock, fate);
            && (SweepResult(c, es, recordQuotes, capturedAt, fate).Failure? <==> Hits(fate, es, recordQuotes))
            && (Hits(fate, es, recordQuotes) ==>
                  && after.Committed() == c.Committed()
                  && (after == c <==> fate.RaisesAt?)
                  && (after.begun.Some? <==> !fate.RaisesAt?)
                  && (fate.InterruptedAt? ==> after.tables == PutAll(c.tables, ws[..fate.write], clock))
                  && (fate.CommitRaises? ==> after.tables == PutAll(c.tables, ws, clock)))
  {
    var ws := SweepWrites(es, recordQuotes, capturedAt);
    StatementsAre(es, recordQuotes, capturedAt);
    hide PutAll, SweepWrites, Statements;
    assert ws[..|ws|] == ws;
  }

  /** One event interrupted before its first market: the event row is there for this connection and
      not committed, and neither that nor a quote recorded afterwards ever is. */
  lemma InterruptedSweepWedges(e: NormalizedEvent, m: NormalizedMarket, at: Time, later: Time)
    requires e.markets == [m]
    ensures var empty := Tables(map[], map[], map[], [], [], []);
            var sweep := Sweep([e], true, at, (k: nat) => at, InterruptedAt(1));
            var quote := Single(InsertQuote(QuoteRowOf(m, later)), later, false);
            var swept := After(Contents(empty, None), sweep);
            var quoted := After(swept, quote);
            && Wedges(sweep)
            && e.eventTicker in swept.tables.events && swept.Committed() == empty
            && |quoted.tables.quotes| == 1 && quoted.Committed() == empty
  {
    var empty := Tables(map[], map[], map[], [], [], []);
    var ws := SweepWrites([e], true, at);
    var first := UpsertEvent(EventRowOf(e));
    assert MarketsOf([e]) == [m] + MarketsOf([]);
    StatementsAre([e], true, at);
    FailedSweepCommitsNothing(Contents(empty, None), [e], true, at, (k: nat) => at, InterruptedAt(1));
    assert ws == [first] + MarketsWrites([m], true, at) + SweepWrites([], true, at);
    assert ws[..1] == [] + [first];
    PutOneMore(empty, [], first, (k: nat) => at);
    hide SweepWrites, MarketsWrites;
  }

  /** From an open transaction no call ever commits anything again, and every sweep is refused. */
  lemma {:induction false} OpenTransactionWedgesTheStore(c: Contents, calls: seq<Call>)
    requires c.begun.Some?
    ensures History(c, calls).begun == c.begun
    ensures History(c, calls).Committed() == c.Committed()
    ensures forall i, f :: 0 <= i < |calls| && calls[i] == f && f.Sweep? ==>
              SweepResult(History(c, calls[..i]), f.events, f.recordQuotes, f.capturedAt, f.fate)
              == Failure(NestedTransaction)
    decreases |calls|
  {
    if calls == [] {
    } else {
      var last := |calls| - 1;
      OpenTransactionWedgesTheStore(c, calls[..last]);
      forall i, f | 0 <= i < |calls| && calls[i] == f && f.Sweep?
        ensures SweepResult(History(c, calls[..i]), f.events, f.recordQuotes, f.capturedAt, f.fate)
             == Failure(NestedTransaction)
      {
        if i < last {
          assert calls[..last][i] == f && calls[..last][..i] == calls[..i];
        }
      }
    }
  }

  lemma CallWedges(c: Contents, call: Call)
    requires c.begun.None?
    ensures After(c, call).begun.Some? <==> Wedges(call)
  {
    if call.Sweep? {
      StatementsAre(call.events, call.recordQuotes, call.capturedAt);
      hide PutAll, SweepWrites, Statements;
    }
  }

  /** The store wedges exactly when some sweep was interrupted, or failed to commit. */
  lemma {:induction false} WedgedIff(c: Contents, calls: seq<Call>)
    requires c.begun.None?
    ensures History(c, calls).begun.Some? <==> exists i :: 0 <= i < |calls| && Wedges(calls[i])
    decreases |calls|
  {
    if calls == [] {
    } else {
      var last := |calls| - 1;
      WedgedIff(c, calls[..last]);
      var before := History(c, calls[..last]);
      assert History(c, calls) == After(before, calls[last]);
      if before.begun.Some? {
        var i :| 0 <= i < |calls[..last]| && Wedges(calls[..last][i]);
        assert Wedges(calls[i]);
      } else {
        assert forall i :: 0 <= i < last ==> calls[i] == calls[..last][i];
        CallWedges(before, calls[last]);
        assert After(before, calls[last]).begun.Some? <==> Wedges(calls[last]);
      }
    }
  }

  // ---- what a list of writes does to each table ----------------------------------------------

  function QuoteOf(w: Write): Option<QuoteRow> {
    if w.InsertQuote? then Some(w.quote) else None
  }

  function EventOf(w: Write): Option<EventRow> {
    if w.UpsertEvent? then Some(w.event) else None
  }

  function MarketOf(w: Write): Option<MarketRow> {
    if w.UpsertMarket? then Some(w.market) else None
  }

  /** The rows of one kind among the writes, in order. */
  function Rows<R>(ws: seq<Write>, rowOf: Write -> Option<R>): seq<R>
    decreases |ws|
  {
    if ws == [] then []
    else Rows(ws[..|ws| - 1], rowOf) + var r := rowOf(ws[|ws| - 1]); if r.Some? then [r.value] else []
  }

  /** Only the tables a sweep writes to are touched. */
  predicate SweepOnly(ws: seq<Write>) {
    forall w :: w in ws ==> w.UpsertEvent? || w.UpsertMarket? || w.InsertQuote?
  }

  /** The last of `rows` with that key. */
  function LastWith<R>(rows: seq<R>, keyOf: R -> string, key: string): Option<R>
    decreases |rows|
  {
    if rows == [] then None
    else if keyOf(rows[|rows| - 1]) == key then Some(rows[|rows| - 1])
    else LastWith(rows[..|rows| - 1], keyOf, key)
  }

  /** LastWith is the row of that key that no row of that key follows. */
  lemma {:induction false} LastWithIff<R>(rows: seq<R>, keyOf: R -> string, key: string, r: R)
    ensures LastWith(rows, keyOf, key) == Some(r)
       <==> exists i :: 0 <= i < |rows| && rows[i] == r && keyOf(r) == key
                        && forall j :: i < j < |rows| ==> keyOf(rows[j]) != key
    decreases |rows|
  {
    if rows == [] {
    } else {
      var last := |rows| - 1;
      if keyOf(rows[last]) != key {
        LastWithIff(rows[..last], keyOf, key, r);
        assert forall i :: 0 <= i < last ==> rows[..last][i] == rows[i];
        if i :| 0 <= i < |rows| && rows[i] == r && keyOf(r) == key
                && forall j :: i < j < |rows| ==> keyOf(rows[j]) != key {
          assert rows[..last][i] == r;
          assert forall j :: i < j < last ==> keyOf(rows[..last][j]) == keyOf(rows[j]);
        }
        if i :| 0 <= i < last && rows[..last][i] == r && keyOf(r) == key
                && forall j :: i < j < last ==> keyOf(rows[..last][j]) != key {
          assert rows[i] == r;
          assert forall j :: i < j < |rows| ==> j == last || keyOf(rows[j]) == keyOf(rows[..last][j]);
        }
      }
    }
  }

  /** `after` holds, under each key, the last of `rows` with that key, and keeps the rows of
      `before` whose keys are not among them. */
  ghost predicate Latest<R>(before: map<string, Stamped<R>>, rows: seq<R>, keyOf: R -> string,
                            after: map<string, Stamped<R>>)
  {
    forall key ::
      var r := LastWith(rows, keyOf, key);
      if r.Some? then key in after && after[key].row == r.value
      else (key in after <==> key in before) && (key in before ==> after[key] == before[key])
  }

  const EVENT_KEY: EventRow -> string := (r: EventRow) => r.eventTicker
  const MARKET_KEY: MarketRow -> string := (r: MarketRow) => r.ticker

  lemma LatestStep<R>(before: map<string, Stamped<R>>, rows: seq<R>, keyOf: R -> string,
                      between: map<string, Stamped<R>>, row: R, now: Time)
    requires Latest(before, rows, keyOf, between)
    ensures Latest(before, rows + [row], keyOf, between[keyOf(row) := Stamped(row, now)])
  {
    assert (rows + [row])[..|rows|] == rows;
    assert forall key :: LastWith(rows + [row], keyOf, key)
                         == if keyOf(row) == key then Some(row) else LastWith(rows, keyOf, key);
  }

  /** A time series gains what was inserted, in order. */
  lemma {:induction false} QuotesAfter(t: Tables, ws: seq<Write>, clock: nat -> Time)
    ensures PutAll(t, ws, clock).quotes == t.quotes + Rows(ws, QuoteOf)
    decreases |ws|
  {
    if ws == [] {
    } else {
      QuotesAfter(t, ws[..|ws| - 1], clock);
    }
  }

  /** A reference table holds what was written last under each key. */
  lemma {:induction false} EventsAfter(t: Tables, ws: seq<Write>, clock: nat -> Time)
    ensures Latest(t.events, Rows(ws, EventOf), EVENT_KEY, PutAll(t, ws, clock).events)
    decreases |ws|
  {
    if ws == [] {
    } else {
      var front, w := ws[..|ws| - 1], ws[|ws| - 1];
      hide Latest;
      EventsAfter(t, front, clock);
      if w.UpsertEvent? {
        LatestStep(t.events, Rows(front, EventOf), EVENT_KEY, PutAll(t, front, clock).events, w.event,
                   clock(|ws| - 1));
      } else {
        assert Rows(ws, EventOf) == Rows(front, EventOf);
      }
    }
  }

  lemma {:induction false} MarketsAfter(t: Tables, ws: seq<Write>, clock: nat -> Time)
    ensures Latest(t.markets, Rows(ws, MarketOf), MARKET_KEY, PutAll(t, ws, clock).markets)
    decreases |ws|
  {
    if ws == [] {
    } else {
      var front, w := ws[..|ws| - 1], ws[|ws| - 1];
      hide Latest;
      MarketsAfter(t, front, clock);
      if w.UpsertMarket? {
        LatestStep(t.markets, Rows(front, MarketOf), MARKET_KEY, PutAll(t, front, clock).markets, w.market,
                   clock(|ws| - 1));
      } else {
        assert Rows(ws, MarketOf) == Rows(front, MarketOf);
      }
    }
  }

  /** A table nobody writes to stays. */
  lemma {:induction false} OthersStay(t: Tables, ws: seq<Write>, clock: nat -> Time)
    requires SweepOnly(ws)
    ensures var after := PutAll(t, ws, clock);
            after.series == t.series && after.books == t.books && after.system == t.system
    decreases |ws|
  {
    if ws == [] {
    } else {
      OthersStay(t, ws[..|ws| - 1], clock);
      assert ws[|ws| - 1] in ws;
    }
  }

  lemma {:induction false} RowsConcat<R>(xs: seq<Write>, ys: seq<Write>, rowOf: Write -> Option<R>)
    ensures Rows(xs + ys, rowOf) == Rows(xs, rowOf) + Rows(ys, rowOf)
    decreases |ys|
  {
    if ys == [] {
      assert xs + ys == xs;
    } else {
      RowsConcat(xs, ys[..|ys| - 1], rowOf);
      assert (xs + ys)[..|xs + ys| - 1] == xs + ys[..|ys| - 1];
    }
  }

  function QuoteRows(ms: seq<NormalizedMarket>, capturedAt: Time): (rows: seq<QuoteRow>)
    ensures |rows| == |ms|
  {
    seq(|ms|, i requires 0 <= i < |ms| => QuoteRowOf(ms[i], capturedAt))
  }

  function MarketRows(ms: seq<NormalizedMarket>): (rows: seq<MarketRow>)
    ensures |rows| == |ms|
  {
    seq(|ms|, i requires 0 <= i < |ms| => MarketRowOf(ms[i]))
  }

  function EventRows(es: seq<NormalizedEvent>): (rows: seq<EventRow>)
    ensures |rows| == |es|
  {
    seq(|es|, i requires 0 <= i < |es| => EventRowOf(es[i]))
  }

  /** These writes are one row per event, one row per market and, if asked for, one quote per
      market, each kind in order. */
  ghost predicate WritesFor(ws: seq<Write>, es: seq<NormalizedEvent>, ms: seq<NormalizedMarket>,
                            recordQuotes: bool, capturedAt: Time)
  {
    && SweepOnly(ws)
    && Rows(ws, EventOf) == EventRows(es)
    && Rows(ws, MarketOf) == MarketRows(ms)
    && Rows(ws, QuoteOf) == if recordQuotes then QuoteRows(ms, capturedAt) else []
  }

  lemma WritesForConcat(xs: seq<Write>, ys: seq<Write>, es: seq<NormalizedEvent>, es': seq<NormalizedEvent>,
                        ms: seq<NormalizedMarket>, ms': seq<NormalizedMarket>, recordQuotes: bool, capturedAt: Time)
    requires WritesFor(xs, es, ms, recordQuotes, capturedAt) && WritesFor(ys, es', ms', recordQuotes, capturedAt)
    ensures WritesFor(xs + ys, es + es', ms + ms', recordQuotes, capturedAt)
  {
    hide Rows;
    RowsConcat(xs, ys, EventOf);
    RowsConcat(xs, ys, MarketOf);
    RowsConcat(xs, ys, QuoteOf);
    assert EventRows(es + es') == EventRows(es) + EventRows(es');
    assert MarketRows(ms + ms') == MarketRows(ms) + MarketRows(ms');
    assert QuoteRows(ms + ms', capturedAt) == QuoteRows(ms, capturedAt) + QuoteRows(ms', capturedAt);
  }

  lemma OneWrite(w: Write)
    ensures Rows([w], EventOf) == (if w.UpsertEvent? then [w.event] else [])
    ensures Rows([w], MarketOf) == (if w.UpsertMarket? then [w.market] else [])
    ensures Rows([w], QuoteOf) == (if w.InsertQuote? then [w.quote] else [])
  {
    assert [w][..0] == [];
  }

  lemma MarketWritesAre(m: NormalizedMarket, recordQuotes: bool, capturedAt: Time)
    ensures WritesFor(MarketWrites(m, recordQuotes, capturedAt), [], [m], recordQuotes, capturedAt)
  {
    hide Rows;
    var u, q := UpsertMarket(MarketRowOf(m)), InsertQuote(QuoteRowOf(m, capturedAt));
    OneWrite(u);
    OneWrite(q);
    RowsConcat([u], [q], EventOf);
    RowsConcat([u], [q], MarketOf);
    RowsConcat([u], [q], QuoteOf);
    assert [u] + [] == [u];
  }

  lemma NoWrites(recordQuotes: bool, capturedAt: Time)
    ensures WritesFor([], [], [], recordQuotes, capturedAt)
  {}

  lemma {:induction false} MarketsWritesAre(ms: seq<NormalizedMarket>, recordQuotes: bool, capturedAt: Time)
    ensures WritesFor(MarketsWrites(ms, recordQuotes, capturedAt), [], ms, recordQuotes, capturedAt)
    decreases |ms|
  {
    hide WritesFor, MarketWrites;
    if ms == [] {
      NoWrites(recordQuotes, capturedAt);
    } else {
      MarketWritesAre(ms[0], recordQuotes, capturedAt);
      MarketsWritesAre(ms[1..], recordQuotes, capturedAt);
      WritesForConcat(MarketWrites(ms[0], recordQuotes, capturedAt), MarketsWrites(ms[1..], recordQuotes, capturedAt),
                      [], [], [ms[0]], ms[1..], recordQuotes, capturedAt);
      assert [ms[0]] + ms[1..] == ms;
      var none: seq<NormalizedEvent> := [];
      assert none + none == none;
    }
  }

  lemma EventWritesAre(e: NormalizedEvent, recordQuotes: bool, capturedAt: Time)
    ensures WritesFor(EventWrites(e, recordQuotes, capturedAt), [e], e.markets, recordQuotes, capturedAt)
  {
    var u := UpsertEvent(EventRowOf(e));
    OneWrite(u);
    assert WritesFor([u], [e], [], recordQuotes, capturedAt);
    hide WritesFor;
    MarketsWritesAre(e.markets, recordQuotes, capturedAt);
    WritesForConcat([u], MarketsWrites(e.markets, recordQuotes, capturedAt), [e], [], [], e.markets,
                    recordQuotes, capturedAt);
    assert [e] + [] == [e] && [] + e.markets == e.markets;
  }

  lemma {:induction false} SweepWritesAre(es: seq<NormalizedEvent>, recordQuotes: bool, capturedAt: Time)
    ensures WritesFor(SweepWrites(es, recordQuotes, capturedAt), es, MarketsOf(es), recordQuotes, capturedAt)
    decreases |es|
  {
    hide WritesFor, EventWrites;
    if es == [] {
      NoWrites(recordQuotes, capturedAt);
    } else {
      EventWritesAre(es[0], recordQuotes, capturedAt);
      SweepWritesAre(es[1..], recordQuotes, capturedAt);
      WritesForConcat(EventWrites(es[0], recordQuotes, capturedAt), SweepWrites(es[1..], recordQuotes, capturedAt),
                      [es[0]], es[1..], es[0].markets, MarketsOf(es[1..]), recordQuotes, capturedAt);
      assert [es[0]] + es[1..] == es;
    }
  }

  /** What a sweep that succeeds leaves behind, table by table: one quote per market, in order,
      all under the one capture time; the last row of each event and market; nothing else. */
  ghost predicate SweptInto(before: Tables, es: seq<NormalizedEvent>, recordQuotes: bool, capturedAt: Time,
                            after: Tables)
  {
    && after.quotes == before.quotes + (if recordQuotes then QuoteRows(MarketsOf(es), capturedAt) else [])
    && Latest(before.events, EventRows(es), EVENT_KEY, after.events)
    && Latest(before.markets, MarketRows(MarketsOf(es)), MARKET_KEY, after.markets)
    && after.series == before.series && after.books == before.books && after.system == before.system
  }

  lemma SuccessfulSweep(c: Contents, es: seq<NormalizedEvent>, recordQuotes: bool, capturedAt: Time,
                        clock: nat -> Time, fate: Fate)
    requires SweepResult(c, es, recordQuotes, capturedAt, fate).Success?
    ensures var after := Transact(c, SweepWrites(es, recordQuotes, capturedAt), clock, fate);
            && after.begun.None?
            && SweptInto(c.tables, es, recordQuotes, capturedAt, after.tables)
            && SweepResult(c, es, recordQuotes, capturedAt, fate).value
               == (|es|, |after.tables.quotes| - |c.tables.quotes|)
  {
    var ws := SweepWrites(es, recordQuotes, capturedAt);
    hide SweepWrites, PutAll, Latest, Rows, MarketsOf, SweepOnly;
    SweepWritesAre(es, recordQuotes, capturedAt);
    QuotesAfter(c.tables, ws, clock);
    EventsAfter(c.tables, ws, clock);
    MarketsAfter(c.tables, ws, clock);
    OthersStay(c.tables, ws, clock);
    assert ws[..|ws|] == ws;
  }

  /** Read back after a sweep that succeeded, market by market and event by event: quote i of those
      it appended shows market i under the one capture time; the row under the ticker of a market
      (or an event) that no later one of the sweep shares shows that market (or event). */
  lemma SweepReadsBack(c: Contents, es: seq<NormalizedEvent>, recordQuotes: bool, capturedAt: Time,
                       clock: nat -> Time, fate: Fate, i: nat, k: nat)
    requires SweepResult(c, es, recordQuotes, capturedAt, fate).Success?
    requires i < |MarketsOf(es)| && k < |es|
    ensures var after := Transact(c, SweepWrites(es, recordQuotes, capturedAt), clock, fate).tables;
            var m, e := MarketsOf(es)[i], es[k];
            && |after.quotes| == |c.tables.quotes| + (if recordQuotes then |MarketsOf(es)| else 0)
            && (recordQuotes ==> QuoteShows(after.quotes[|c.tables.quotes| + i], m, capturedAt))
            && ((forall j :: i < j < |MarketsOf(es)| ==> MarketsOf(es)[j].ticker != m.ticker) ==>
                  m.ticker in after.markets && MarketShows(after.markets[m.ticker].row, m))
            && ((forall j :: k < j < |es| ==> es[j].eventTicker != e.eventTicker) ==>
                  e.eventTicker in after.events && EventShows(after.events[e.eventTicker].row, e))
  {
    SuccessfulSweep(c, es, recordQuotes, capturedAt, clock, fate);
    var after := Transact(c, SweepWrites(es, recordQuotes, capturedAt), clock, fate).tables;
    var ms := MarketsOf(es);
    hide Transact, SweepWrites, MarketsOf, SweepResult;
    LastMarketShows(c.tables.markets, ms, after.markets, i);
    LastEventShows(c.tables.events, es, after.events, k);
    hide Latest;
  }

  lemma LastMarketShows(before: map<string, Stamped<MarketRow>>, ms: seq<NormalizedMarket>,
                        after: map<string, Stamped<MarketRow>>, i: nat)
    requires Latest(before, MarketRows(ms), MARKET_KEY, after) && i < |ms|
    ensures (forall j :: i < j < |ms| ==> ms[j].ticker != ms[i].ticker) ==>
              ms[i].ticker in after && MarketShows(after[ms[i].ticker].row, ms[i])
  {
    if forall j :: i < j < |ms| ==> ms[j].ticker != ms[i].ticker {
      var rows, key := MarketRows(ms), ms[i].ticker;
      assert rows[i] == MarketRowOf(ms[i]);
      LastWithIff(rows, MARKET_KEY, key, rows[i]);
      assert LastWith(rows, MARKET_KEY, key) == Some(rows[i]);
    }
  }

  lemma LastEventShows(before: map<string, Stamped<EventRow>>, es: seq<NormalizedEvent>,
                       after: map<string, Stamped<EventRow>>, k: nat)
    requires Latest(before, EventRows(es), EVENT_KEY, after) && k < |es|
    ensures (forall j :: k < j < |es| ==> es[j].eventTicker != es[k].eventTicker) ==>
              es[k].eventTicker in after && EventShows(after[es[k].eventTicker].row, es[k])
  {
    if forall j :: k < j < |es| ==> es[j].eventTicker != es[k].eventTicker {
      var rows, key := EventRows(es), es[k].eventTicker;
      assert rows[k] == EventRowOf(es[k]);
      LastWithIff(rows, EVENT_KEY, key, rows[k]);
      assert LastWith(rows, EVENT_KEY, key) == Some(rows[k]);
    }
  }

  // ---- the last write to a key, with its time ------------------------------------------------

  /** The key a write updates. */
  datatype Key = SeriesKey(ticker: string) | EventKey(ticker: string) | MarketKey(ticker: string)

  function KeyOf(w: Write): Option<Key> {
    match w
    case UpsertSeries(r) => Some(SeriesKey(r.ticker))
    case UpsertEvent(r) => Some(EventKey(r.eventTicker))
    case UpsertMarket(r) => Some(MarketKey(r.ticker))
    case _ => None
  }

  /** The reference row `w` writes is there, stamped `now`. */
  predicate Holds(t: Tables, w: Write, now: Time) {
    match w
    case UpsertSeries(r) => r.ticker in t.series && t.series[r.ticker] == Stamped(r, now)
    case UpsertEvent(r) => r.eventTicker in t.events && t.events[r.eventTicker] == Stamped(r, now)
    case UpsertMarket(r) => r.ticker in t.markets && t.markets[r.ticker] == Stamped(r, now)
    case _ => true
  }

  /** After any writes, a key that was written holds the row and the time of its last write. */
  lemma {:induction false} LastWriteWins(t: Tables, ws: seq<Write>, clock: nat -> Time, k: nat)
    requires k < |ws| && KeyOf(ws[k]).Some?
    requires forall j :: k < j < |ws| ==> KeyOf(ws[j]) != KeyOf(ws[k])
    ensures Holds(PutAll(t, ws, clock), ws[k], clock(k))
    decreases |ws|
  {
    var last := |ws| - 1;
    var front := PutAll(t, ws[..last], clock);
    if k < last {
      LastWriteWins(t, ws[..last], clock, k);
      OtherKeyStays(front, ws[last], clock(last), ws[k], clock(k));
    }
  }

  lemma OtherKeyStays(t: Tables, w: Write, now: Time, held: Write, at: Time)
    requires KeyOf(held).Some? && KeyOf(w) != KeyOf(held) && Holds(t, held, at)
    ensures Holds(Put(t, w, now), held, at)
  {}
}
