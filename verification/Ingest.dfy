/** data/ingest.py: the audited sweep. The audit counts what was fetched and records every crossed
    book as it finds it; then the whole slice is stored in one transaction; then a summary. */
module Ingest {
  import opened Results
  import opened Filtering
  import opened Markets
  import opened Store

  datatype ShardStatus = ShardStatus(index: int, tradingActive: Option<bool>)
  datatype ExchangeStatus = ExchangeStatus(tradingActive: Option<bool>, shards: seq<ShardStatus>) {
    /** An absent exchange-wide flag reads as trading. */
    predicate Halted() {
      tradingActive == Some(false)
    }

    /** An absent shard flag reads as not trading. */
    function Inactive(): seq<int> {
      InactiveOf(shards)
    }
  }

  const IDLE: ShardStatus -> bool := (s: ShardStatus) => s.tradingActive.None? || !s.tradingActive.value

  /** One index for each shard that is not known to trade, in order. */
  ghost predicate ListsIdle(indices: seq<int>, shards: seq<ShardStatus>) {
    exists idle: seq<ShardStatus> :: Filters(idle, shards, IDLE) && AreIndicesOf(indices, idle)
  }

  predicate AreIndicesOf(indices: seq<int>, shards: seq<ShardStatus>) {
    |indices| == |shards| && forall i :: 0 <= i < |shards| ==> indices[i] == shards[i].index
  }

  function InactiveOf(shards: seq<ShardStatus>): seq<int>
    decreases |shards|
  {
    if shards == [] then []
    else
      var last := shards[|shards| - 1];
      InactiveOf(shards[..|shards| - 1]) + if last.tradingActive != Some(true) then [last.index] else []
  }

  lemma {:induction false} InactiveAreIdle(shards: seq<ShardStatus>)
    ensures ListsIdle(InactiveOf(shards), shards)
    decreases |shards|
  {
    if shards == [] {
      NothingToKeep(IDLE);
      assert AreIndicesOf([], []);
    } else {
      hide ListsIdle;
      var front, last := shards[..|shards| - 1], shards[|shards| - 1];
      InactiveAreIdle(front);
      OneMoreShard(InactiveOf(front), front, last);
      assert shards == front + [last];
      IdleOrTrading(last);
      assert InactiveOf(front) + [] == InactiveOf(front);
    }
  }

  lemma IdleOrTrading(s: ShardStatus)
    ensures IDLE(s) <==> s.tradingActive != Some(true)
  {
    if s.tradingActive.Some? {
      assert s.tradingActive == Some(s.tradingActive.value);
      if s.tradingActive.value { assert s.tradingActive == Some(true); }
    }
  }

  lemma OneMoreShard(idle: seq<int>, front: seq<ShardStatus>, last: ShardStatus)
    requires ListsIdle(idle, front)
    ensures IDLE(last) ==> ListsIdle(idle + [last.index], front + [last])
    ensures !IDLE(last) ==> ListsIdle(idle, front + [last])
  {
    var found: seq<ShardStatus> :| Filters(found, front, IDLE) && AreIndicesOf(idle, found);
    hide Filters;
    FiltersSnoc(found, front, IDLE, last);
    assert AreIndicesOf(idle + [last.index], found + [last]);
  }

  const CROSSED: NormalizedMarket -> bool := (m: NormalizedMarket) => m.yesBid + m.noBid > m.notional

  function CrossedOf(ms: seq<NormalizedMarket>): seq<NormalizedMarket>
    decreases |ms|
  {
    if ms == [] then []
    else
      var last := ms[|ms| - 1];
      CrossedOf(ms[..|ms| - 1]) + if last.BookIsUncrossed() then [] else [last]
  }

  /** The crossed books are the one list that holds the markets whose two bids exceed the notional
      in order, each as often as it occurs. */
  lemma CrossedAre(ms: seq<NormalizedMarket>, crossed: seq<NormalizedMarket>)
    ensures Filters(crossed, ms, CROSSED) <==> crossed == CrossedOf(ms)
  {
    CrossedAreExact(ms);
    hide Filters, CrossedOf;
    if Filters(crossed, ms, CROSSED) {
      FiltersUnique(crossed, CrossedOf(ms), ms, CROSSED);
    }
  }

  lemma {:induction false} CrossedAreExact(ms: seq<NormalizedMarket>)
    ensures Filters(CrossedOf(ms), ms, CROSSED)
    decreases |ms|
  {
    if ms == [] {
      NothingToKeep(CROSSED);
    } else {
      hide Filters;
      var front, last := ms[..|ms| - 1], ms[|ms| - 1];
      CrossedAreExact(front);
      FiltersSnoc(CrossedOf(front), front, CROSSED, last);
      assert ms == front + [last];
      assert CrossedOf(front) + [] == CrossedOf(front);
    }
  }

  function Tickers(ms: seq<NormalizedMarket>): seq<string> {
    seq(|ms|, i requires 0 <= i < |ms| => ms[i].ticker)
  }

  /** How many of the events are mutually exclusive. */
  function ExclusiveIn(es: seq<NormalizedEvent>): nat
    decreases |es|
  {
    if es == [] then 0
    else ExclusiveIn(es[..|es| - 1]) + if es[|es| - 1].mutuallyExclusive then 1 else 0
  }

  function Violation(m: NormalizedMarket): Note {
    InvariantViolation(m.ticker, m.yesBid, m.noBid, m.notional)
  }

  /** One violation note per crossed book, in order. */
  function Violations(ms: seq<NormalizedMarket>): (notes: seq<Note>)
    ensures |notes| == |CrossedOf(ms)|
  {
    var crossed := CrossedOf(ms);
    seq(|crossed|, i requires 0 <= i < |crossed| => Violation(crossed[i]))
  }

  /** Each note names its market and shows the prices that cross. */
  lemma ViolationShows(ms: seq<NormalizedMarket>, i: nat)
    requires i < |CrossedOf(ms)|
    ensures var m, note := CrossedOf(ms)[i], Violations(ms)[i];
            && note.InvariantViolation? && note.ticker == m.ticker
            && note.yesBid == m.yesBid && note.noBid == m.noBid && note.notional == m.notional
            && note.yesBid + note.noBid > note.notional
  {
    CrossedAreExact(ms);
    var crossed := CrossedOf(ms);
    var at: seq<nat> :| Picks(ms, CROSSED, at) && Reads(crossed, ms, at);
    assert CROSSED(ms[at[i]]);
  }

  /** The notes as rows, the i-th made at `clock(i)`. */
  function NoteRows(notes: seq<Note>, clock: nat -> Time): (rows: seq<SystemRow>)
    ensures |rows| == |notes|
  {
    seq(|notes|, i requires 0 <= i < |notes| => SystemRow(clock(i), notes[i]))
  }

  function Noted(c: Contents, notes: seq<Note>, clock: nat -> Time): Contents {
    c.(tables := c.tables.(system := c.tables.system + NoteRows(notes, clock)))
  }

  // ---- the report --------------------------------------------------------------------------

  /** The fields of a report at one moment. */
  datatype Report = Report(events: nat, markets: nat, quotes: nat, books: nat, mutuallyExclusiveEvents: nat,
                           tradeableMarkets: nat, crossedBooks: seq<string>, inactiveShards: seq<int>,
                           throttledSeconds: real)

  const NOTHING := Report(0, 0, 0, 0, 0, 0, [], [], 0.0)

  class IngestReport {
    var events: nat
    var markets: nat
    var quotes: nat
    var books: nat
    var mutuallyExclusiveEvents: nat
    var tradeableMarkets: nat
    var crossedBooks: seq<string>
    var inactiveShards: seq<int>
    var throttledSeconds: real

    constructor ()
      ensures Seen() == NOTHING
    {
      events, markets, quotes, books, mutuallyExclusiveEvents, tradeableMarkets := 0, 0, 0, 0, 0, 0;
      crossedBooks, inactiveShards, throttledSeconds := [], [], 0.0;
    }

    function Seen(): Report
      reads this
    {
      Report(events, markets, quotes, books, mutuallyExclusiveEvents, tradeableMarkets, crossedBooks,
             inactiveShards, throttledSeconds)
    }
  }

  // ---- the audit ---------------------------------------------------------------------------

  /** The report `a` after an audit of the events `es` and, of their markets, `seen`. */
  function Tally(a: Report, es: seq<NormalizedEvent>, seen: seq<NormalizedMarket>): Report {
    a.(events := a.events + |es|,
       mutuallyExclusiveEvents := a.mutuallyExclusiveEvents + ExclusiveIn(es),
       markets := a.markets + |seen|,
       tradeableMarkets := a.tradeableMarkets + |ActiveOf(seen)|,
       crossedBooks := a.crossedBooks + Tickers(CrossedOf(seen)))
  }

  /** Auditing exactly `seen` leaves the store `c0` as `c`. A row that could not be written stops
      the audit there. */
  ghost predicate Audited(c0: Contents, seen: seq<NormalizedMarket>, clock: nat -> Time, raises: nat -> bool,
                          stopped: Option<StoreError>, c: Contents)
  {
    var crossed := |CrossedOf(seen)|;
    if stopped.None? then FirstRaise(raises, crossed) == crossed && c == Noted(c0, Violations(seen), clock)
    else
      && stopped.value == WriteRaised
      && FirstRaise(raises, crossed) + 1 == crossed
      && c == Noted(c0, Violations(seen)[..crossed - 1], clock)
  }

  /** `seen` is every market of the first `i` events, or ends within the last of them. */
  ghost predicate PartOf(es: seq<NormalizedEvent>, i: nat, seen: seq<NormalizedMarket>) {
    i <= |es| && seen <= MarketsOf(es[..i]) && (i > 0 ==> MarketsOf(es[..i - 1]) <= seen)
  }

  /** The first of `n` writes that raises, or `n`. */
  function FirstRaise(raises: nat -> bool, n: nat): (k: nat)
    ensures k <= n && (k < n ==> raises(k)) && forall i :: 0 <= i < k ==> !raises(i)
  {
    if n == 0 then 0
    else
      var k := FirstRaise(raises, n - 1);
      if k < n - 1 || raises(n - 1) then k else n
  }

  lemma {:induction false} ActiveSnoc(ms: seq<NormalizedMarket>, m: NormalizedMarket)
    ensures ActiveOf(ms + [m]) == ActiveOf(ms) + if m.status.IsTradeable() then [m] else []
    decreases |ms|
  {
    if ms == [] {
      assert ms + [m] == [m];
    } else {
      assert (ms + [m])[1..] == ms[1..] + [m];
      ActiveSnoc(ms[1..], m);
      var first := if ms[0].status.IsTradeable() then [ms[0]] else [];
      var last := if m.status.IsTradeable() then [m] else [];
      assert first + (ActiveOf(ms[1..]) + last) == first + ActiveOf(ms[1..]) + last;
    }
  }

  lemma CrossedSnoc(ms: seq<NormalizedMarket>, m: NormalizedMarket)
    ensures m.BookIsUncrossed() ==> CrossedOf(ms + [m]) == CrossedOf(ms) && Violations(ms + [m]) == Violations(ms)
    ensures !m.BookIsUncrossed() ==>
              && CrossedOf(ms + [m]) == CrossedOf(ms) + [m]
              && Violations(ms + [m]) == Violations(ms) + [Violation(m)]
              && Tickers(CrossedOf(ms + [m])) == Tickers(CrossedOf(ms)) + [m.ticker]
  {
    assert (ms + [m])[..|ms|] == ms;
    assert CrossedOf(ms) + [] == CrossedOf(ms);
  }

  lemma NoteSnoc(c: Contents, notes: seq<Note>, note: Note, clock: nat -> Time)
    ensures Noted(c, notes + [note], clock)
            == Alone(Noted(c, notes, clock), InsertSystem(SystemRow(clock(|notes|), note)), clock(|notes|), false)
    ensures (notes + [note])[..|notes|] == notes
    ensures Alone(Noted(c, notes, clock), InsertSystem(SystemRow(clock(|notes|), note)), clock(|notes|), true)
            == Noted(c, notes, clock)
  {
    assert NoteRows(notes + [note], clock) == NoteRows(notes, clock) + [SystemRow(clock(|notes|), note)];
  }

  lemma {:induction false} MarketsSnoc(es: seq<NormalizedEvent>, e: NormalizedEvent)
    ensures MarketsOf(es + [e]) == MarketsOf(es) + e.markets
    decreases |es|
  {
    if es == [] {
      assert es + [e] == [e];
      assert MarketsOf([e]) == e.markets + MarketsOf([]);
    } else {
      assert (es + [e])[1..] == es[1..] + [e];
      MarketsSnoc(es[1..], e);
    }
  }

  lemma {:induction false} MarketsPrefix(es: seq<NormalizedEvent>, k: nat)
    requires k <= |es|
    ensures MarketsOf(es[..k]) <= MarketsOf(es)
    decreases |es|
  {
    if k == 0 {
      assert MarketsOf(es[..0]) == [];
    } else {
      assert es[..k][0] == es[0] && es[..k][1..] == es[1..][..k - 1];
      MarketsPrefix(es[1..], k - 1);
    }
  }

  lemma TallyStep(a: Report, es: seq<NormalizedEvent>, seen: seq<NormalizedMarket>, m: NormalizedMarket)
    ensures var b := Tally(a, es, seen);
            Tally(a, es, seen + [m])
            == b.(markets := b.markets + 1,
                  tradeableMarkets := b.tradeableMarkets + (if m.status.IsTradeable() then 1 else 0),
                  crossedBooks := if m.BookIsUncrossed() then b.crossedBooks else b.crossedBooks + [m.ticker])
  {
    ActiveSnoc(seen, m);
    CrossedSnoc(seen, m);
    hide ActiveOf, CrossedOf, Tickers, ExclusiveIn;
    assert a.crossedBooks + (Tickers(CrossedOf(seen)) + [m.ticker])
        == a.crossedBooks + Tickers(CrossedOf(seen)) + [m.ticker];
  }

  lemma TallyEvent(a: Report, es: seq<NormalizedEvent>, i: nat, seen: seq<NormalizedMarket>)
    requires i < |es|
    ensures var b := Tally(a, es[..i], seen);
            Tally(a, es[..i + 1], seen)
            == b.(events := b.events + 1,
                  mutuallyExclusiveEvents := b.mutuallyExclusiveEvents + if es[i].mutuallyExclusive then 1 else 0)
  {
    assert es[..i + 1] == es[..i] + [es[i]] && es[..i + 1][..i] == es[..i];
    hide ActiveOf, CrossedOf, Tickers;
  }

  lemma AuditStep(c0: Contents, seen: seq<NormalizedMarket>, m: NormalizedMarket, clock: nat -> Time,
                  raises: nat -> bool, c: Contents)
    requires Audited(c0, seen, clock, raises, None, c)
    ensures var k := |CrossedOf(seen)|;
            var row := InsertSystem(SystemRow(clock(k), Violation(m)));
            if m.BookIsUncrossed()
            then |CrossedOf(seen + [m])| == k && Audited(c0, seen + [m], clock, raises, None, c)
            else |CrossedOf(seen + [m])| == k + 1
                 && Audited(c0, seen + [m], clock, raises, if raises(k) then Some(WriteRaised) else None,
                            Alone(c, row, clock(k), raises(k)))
  {
    CrossedSnoc(seen, m);
    NoteSnoc(c0, Violations(seen), Violation(m), clock);
    hide CrossedOf, Violations, NoteRows, Noted, Alone;
  }

  lemma AuditNothing(a: Report, c: Contents, clock: nat -> Time, raises: nat -> bool)
    ensures Audited(c, [], clock, raises, None, c)
    ensures Tally(a, [], []) == a
  {
    assert NoteRows([], clock) == [];
    assert Tickers([]) == [];
  }

  lemma {:induction false} CrossedPrefix(ms: seq<NormalizedMarket>, n: nat)
    requires n <= |ms|
    ensures CrossedOf(ms[..n]) <= CrossedOf(ms) && Violations(ms[..n]) <= Violations(ms)
    decreases |ms| - n
  {
    hide CrossedOf, Violations;
    if n == |ms| {
      assert ms[..n] == ms;
    } else {
      CrossedPrefix(ms, n + 1);
      assert ms[..n + 1] == ms[..n] + [ms[n]];
      CrossedSnoc(ms[..n], ms[n]);
    }
  }

  lemma {:induction false} FirstRaiseIs(raises: nat -> bool, k: nat, n: nat)
    requires k < n && FirstRaise(raises, k + 1) == k
    ensures FirstRaise(raises, n) == k
    decreases n
  {
    if k + 1 < n {
      FirstRaiseIs(raises, k, n - 1);
    }
  }

  /** The row that could not be written is the first of all the rows the audit would write that
      raises. */
  lemma AuditEnds(es: seq<NormalizedEvent>, i: nat, seen: seq<NormalizedMarket>, c0: Contents,
                  clock: nat -> Time, raises: nat -> bool, stopped: Option<StoreError>, c: Contents)
    requires PartOf(es, i, seen) && Audited(c0, seen, clock, raises, stopped, c)
    requires stopped.None? ==> seen == MarketsOf(es)
    ensures var violations := Violations(MarketsOf(es));
            var written := FirstRaise(raises, |violations|);
            && c == Noted(c0, violations[..written], clock)
            && (stopped.Some? ==> |CrossedOf(seen)| == written + 1)
            && stopped == if written < |violations| then Some(WriteRaised) else None
  {
    var ms := MarketsOf(es);
    MarketsPrefix(es, i);
    assert seen == ms[..|seen|];
    CrossedPrefix(ms, |seen|);
    AuditStops(seen, ms, c0, clock, raises, stopped, c);
  }

  lemma AuditStops(seen: seq<NormalizedMarket>, ms: seq<NormalizedMarket>, c0: Contents,
                   clock: nat -> Time, raises: nat -> bool, stopped: Option<StoreError>, c: Contents)
    requires Audited(c0, seen, clock, raises, stopped, c) && (stopped.None? ==> seen == ms)
    requires Violations(seen) <= Violations(ms)
    ensures var violations := Violations(ms);
            var written := FirstRaise(raises, |violations|);
            && c == Noted(c0, violations[..written], clock)
            && (stopped.Some? ==> |CrossedOf(seen)| == written + 1)
            && stopped == if written < |violations| then Some(WriteRaised) else None
  {
    hide CrossedOf, Violations, Noted;
    if stopped.Some? {
      var k := |CrossedOf(seen)| - 1;
      FirstRaiseIs(raises, k, |CrossedOf(ms)|);
      assert Violations(seen)[..k] == Violations(ms)[..k];
    } else {
      assert Violations(ms)[..|Violations(ms)|] == Violations(ms);
    }
  }

  lemma NextEvent(es: seq<NormalizedEvent>, i: nat, j: nat, seen: seq<NormalizedMarket>)
    requires i < |es| && j <= |es[i].markets| && seen == MarketsOf(es[..i]) + es[i].markets[..j]
    ensures PartOf(es, i + 1, seen)
    ensures j == |es[i].markets| ==> seen == MarketsOf(es[..i + 1])
  {
    assert es[..i + 1] == es[..i] + [es[i]] && es[..i + 1][..i] == es[..i];
    MarketsSnoc(es[..i], es[i]);
    assert es[i].markets[..|es[i].markets|] == es[i].markets;
  }

  // ---- one sweep ---------------------------------------------------------------------------

  /** What the world does during one sweep: what the exchange answers (None for a request that
      raised), when each row is written, and which write raises. */
  datatype World = World(
    status: Option<ExchangeStatus>, haltAt: Time, haltRaises: bool,
    fetched: Option<seq<NormalizedEvent>>, throttled: real,
    auditClock: nat -> Time, auditRaises: nat -> bool,
    capturedAt: Time, sweepClock: nat -> Time, fate: Fate,
    doneAt: Time, doneRaises: bool)

  datatype IngestError =
    | StatusFailed
    | HaltNotRecorded
    | EventsFailed
    | AuditFailed
    | SweepFailed(error: StoreError)
    | SummaryNotRecorded

  /** The note of a sweep that stored all of `es`. */
  function Summary(status: ExchangeStatus, es: seq<NormalizedEvent>): Note {
    var ms := MarketsOf(es);
    SweepComplete(|es|, |ms|, |ms|, Tickers(CrossedOf(ms)), status.Inactive())
  }

  /** The report of a sweep that stored all of `es`. */
  function FullReport(status: ExchangeStatus, es: seq<NormalizedEvent>, throttled: real): Report {
    Tally(NOTHING.(inactiveShards := status.Inactive()), es, MarketsOf(es))
    .(quotes := |MarketsOf(es)|, throttledSeconds := throttled)
  }

  function AfterStatus(c: Contents, w: World): Contents {
    if w.status.Some? && w.status.value.Halted()
    then Alone(c, InsertSystem(SystemRow(w.haltAt, ExchangeInactive)), w.haltAt, w.haltRaises)
    else c
  }

  function AfterAudit(c: Contents, w: World, es: seq<NormalizedEvent>): Contents {
    var violations := Violations(MarketsOf(es));
    Noted(AfterStatus(c, w), violations[..FirstRaise(w.auditRaises, |violations|)], w.auditClock)
  }

  function AfterWrites(c: Contents, w: World, es: seq<NormalizedEvent>): Contents {
    Transact(AfterAudit(c, w, es), SweepWrites(es, true, w.capturedAt), w.sweepClock, w.fate)
  }

  /** Where the sweep stops, if it does. */
  function Outcome(c: Contents, w: World): Option<IngestError> {
    if w.status.None? then Some(StatusFailed)
    else if w.status.value.Halted() && w.haltRaises then Some(HaltNotRecorded)
    else if w.fetched.None? then Some(EventsFailed)
    else
      var es := w.fetched.value;
      var violations := |Violations(MarketsOf(es))|;
      if FirstRaise(w.auditRaises, violations) < violations then Some(AuditFailed)
      else
        match SweepResult(AfterAudit(c, w, es), es, true, w.capturedAt, w.fate)
        case Failure(error) => Some(SweepFailed(error))
        case Success(_) => if w.doneRaises then Some(SummaryNotRecorded) else None
  }

  /** What the sweep leaves in the store. */
  function Ingested(c: Contents, w: World): Contents {
    var outcome := Outcome(c, w);
    if outcome == Some(StatusFailed) || outcome == Some(HaltNotRecorded) || outcome == Some(EventsFailed) then
      AfterStatus(c, w)
    else
      var es := w.fetched.value;
      if outcome == Some(AuditFailed) then AfterAudit(c, w, es)
      else if outcome.Some? then AfterWrites(c, w, es)
      else
        Alone(AfterWrites(c, w, es), InsertSystem(SystemRow(w.doneAt, Summary(w.status.value, es))), w.doneAt, false)
  }

  /** The report of an audited sweep says what its summary says. */
  lemma TallyTotals(status: ExchangeStatus, es: seq<NormalizedEvent>)
    ensures var b := Tally(NOTHING.(inactiveShards := status.Inactive()), es, MarketsOf(es));
            Summary(status, es) == SweepComplete(b.events, b.markets, |MarketsOf(es)|, b.crossedBooks, b.inactiveShards)
  {
    hide MarketsOf, CrossedOf, Tickers, ExclusiveIn, ActiveOf;
    assert [] + Tickers(CrossedOf(MarketsOf(es))) == Tickers(CrossedOf(MarketsOf(es)));
  }

  class MarketIngestor {
    const store: MarketDataStore

    constructor (store: MarketDataStore)
      ensures this.store == store
    {
      this.store := store;
    }

    /** One market of the audit; `k` numbers the violations found so far. */
    method AuditMarket(m: NormalizedMarket, report: IngestReport, k: nat, clock: nat -> Time, raises: nat -> bool,
                       ghost a: Report, ghost c0: Contents, ghost es: seq<NormalizedEvent>,
                       ghost seen: seq<NormalizedMarket>)
      returns (stopped: Option<StoreError>, next: nat)
      requires Audited(c0, seen, clock, raises, None, store.State()) && k == |CrossedOf(seen)|
      requires report.Seen() == Tally(a, es, seen)
      modifies report, store
      ensures Audited(c0, seen + [m], clock, raises, stopped, store.State()) && next == |CrossedOf(seen + [m])|
      ensures report.Seen() == Tally(a, es, seen + [m])
    {
      AuditStep(c0, seen, m, clock, raises, store.State());
      TallyStep(a, es, seen, m);
      hide Audited, CrossedOf, Alone, Tally;
      stopped, next := None, k;
      report.markets := report.markets + 1;
      if m.status.IsTradeable() {
        report.tradeableMarkets := report.tradeableMarkets + 1;
      }
      if !m.BookIsUncrossed() {
        report.crossedBooks := report.crossedBooks + [m.ticker];
        stopped := store.RecordSystemEvent(Violation(m), clock(k), raises(k));
        next := k + 1;
      }
    }

    /** One event of the audit; `k` numbers the violations found so far. */
    method AuditEvent(es: seq<NormalizedEvent>, i: nat, report: IngestReport, k: nat, clock: nat -> Time,
                      raises: nat -> bool, ghost a: Report, ghost c0: Contents)
      returns (stopped: Option<StoreError>, next: nat, ghost seen: seq<NormalizedMarket>)
      requires i < |es|
      requires Audited(c0, MarketsOf(es[..i]), clock, raises, None, store.State())
      requires k == |CrossedOf(MarketsOf(es[..i]))|
      requires report.Seen() == Tally(a, es[..i], MarketsOf(es[..i]))
      modifies report, store
      ensures PartOf(es, i + 1, seen) && (stopped.None? ==> seen == MarketsOf(es[..i + 1]))
      ensures Audited(c0, seen, clock, raises, stopped, store.State()) && next == |CrossedOf(seen)|
      ensures report.Seen() == Tally(a, es[..i + 1], seen)
    {
      hide Audited, CrossedOf, MarketsOf, Tally, PartOf;
      var e := es[i];
      seen, next, stopped := MarketsOf(es[..i]), k, None;
      TallyEvent(a, es, i, seen);
      report.events := report.events + 1;
      if e.mutuallyExclusive {
        report.mutuallyExclusiveEvents := report.mutuallyExclusiveEvents + 1;
      }
      var j := 0;
      while j < |e.markets| && stopped.None?
        invariant j <= |e.markets| && seen == MarketsOf(es[..i]) + e.markets[..j] && next == |CrossedOf(seen)|
        invariant Audited(c0, seen, clock, raises, stopped, store.State())
        invariant report.Seen() == Tally(a, es[..i + 1], seen)
        decreases |e.markets| - j
      {
        ghost var now := seen;
        stopped, next := AuditMarket(e.markets[j], report, next, clock, raises, a, c0, es[..i + 1], now);
        seen, j := now + [e.markets[j]], j + 1;
      }
      NextEvent(es, i, j, seen);
    }

    /** _audit: every crossed book goes into the report and then into the store. When a row cannot
        be written the audit stops there, and the report covers the markets up to that one. */
    method Audit(es: seq<NormalizedEvent>, report: IngestReport, clock: nat -> Time, raises: nat -> bool)
      returns (stopped: Option<StoreError>)
      modifies report, store
      ensures var violations := Violations(MarketsOf(es));
              var written := FirstRaise(raises, |violations|);
              && store.State() == Noted(old(store.State()), violations[..written], clock)
              && stopped == if written < |violations| then Some(WriteRaised) else None
      ensures stopped.None? ==> report.Seen() == Tally(old(report.Seen()), es, MarketsOf(es))
      ensures stopped.Some? ==>
                exists i: nat, seen :: PartOf(es, i, seen) && report.Seen() == Tally(old(report.Seen()), es[..i], seen)
                                       && |CrossedOf(seen)| == FirstRaise(raises, |Violations(MarketsOf(es))|) + 1
    {
      ghost var a, c0 := report.Seen(), store.State();
      var i, k := 0, 0;
      ghost var seen: seq<NormalizedMarket> := [];
      AuditNothing(a, c0, clock, raises);
      assert es[..0] == [];
      stopped := None;
      hide Audited, CrossedOf, MarketsOf, Tally, Noted, Violations;
      while i < |es| && stopped.None?
        invariant i <= |es| && (stopped.None? ==> seen == MarketsOf(es[..i])) && k == |CrossedOf(seen)|
        invariant PartOf(es, i, seen) && Audited(c0, seen, clock, raises, stopped, store.State())
        invariant report.Seen() == Tally(a, es[..i], seen)
        decreases |es| - i
      {
        stopped, k, seen := AuditEvent(es, i, report, k, clock, raises, a, c0);
        i := i + 1;
      }
      assert es[..|es|] == es;
      AuditEnds(es, i, seen, c0, clock, raises, stopped, store.State());
    }

    /** check_shards: the shards not trading; a halted exchange is noted in the store. */
    method CheckShards(status: ExchangeStatus, now: Time, raises: bool)
      returns (inactive: seq<int>, stopped: Option<StoreError>)
      modifies store
      ensures ListsIdle(inactive, status.shards) && inactive == status.Inactive()
      ensures var before, row := old(store.State()), InsertSystem(SystemRow(now, ExchangeInactive));
              store.State() == if status.tradingActive == Some(false) then Alone(before, row, now, raises) else before
      ensures stopped == if status.tradingActive == Some(false) && raises then Some(WriteRaised) else None
    {
      InactiveAreIdle(status.shards);
      hide ListsIdle;
      inactive, stopped := status.Inactive(), None;
      if status.Halted() {
        stopped := store.RecordSystemEvent(ExchangeInactive, now, raises);
      }
    }

    /** The second half of sweep: the slice, then the summary. */
    method StoreSlice(status: ExchangeStatus, es: seq<NormalizedEvent>, report: IngestReport, w: World)
      returns (stopped: Option<IngestError>)
      requires report.Seen() == Tally(NOTHING.(inactiveShards := status.Inactive()), es, MarketsOf(es))
      modifies report, store
      ensures var before := old(store.State());
              var result := SweepResult(before, es, true, w.capturedAt, w.fate);
              var slice := Transact(before, SweepWrites(es, true, w.capturedAt), w.sweepClock, w.fate);
              var row := InsertSystem(SystemRow(w.doneAt, Summary(status, es)));
              && stopped == (if result.Failure? then Some(SweepFailed(result.error))
                             else if w.doneRaises then Some(SummaryNotRecorded) else None)
              && store.State() == (if stopped.Some? then slice else Alone(slice, row, w.doneAt, false))
      ensures stopped.None? ==> report.Seen() == FullReport(status, es, w.throttled)
    {
      TallyTotals(status, es);
      hide Tally, Violations, Noted, MarketsOf, Transact, SweepWrites, CrossedOf, Tickers, Failing;
      var swept := store.RecordSnapshotSweep(es, true, w.capturedAt, w.sweepClock, w.fate);
      if swept.Failure? {
        return Some(SweepFailed(swept.error));
      }
      report.quotes := swept.value.1;
      report.throttledSeconds := w.throttled;
      var done := store.RecordSystemEvent(
        SweepComplete(report.events, report.markets, report.quotes, report.crossedBooks, report.inactiveShards),
        w.doneAt, w.doneRaises);
      stopped := if done.Some? then Some(SummaryNotRecorded) else None;
    }

    /** sweep */
    method Sweep(w: World) returns (report: IngestReport, stopped: Option<IngestError>)
      modifies store
      ensures fresh(report)
      ensures stopped == Outcome(old(store.State()), w)
      ensures store.State() == Ingested(old(store.State()), w)
      ensures stopped.None? ==> report.Seen() == FullReport(w.status.value, w.fetched.value, w.throttled)
    {
      hide Tally, FullReport, Summary, MarketsOf, Violations, FirstRaise, CrossedOf, Tickers, InactiveOf;
      hide Noted, Alone, Transact, SweepWrites, SweepResult, PartOf;
      report := new IngestReport();
      if w.status.None? {
        return report, Some(StatusFailed);
      }
      var inactive, halt := CheckShards(w.status.value, w.haltAt, w.haltRaises);
      if halt.Some? {
        return report, Some(HaltNotRecorded);
      }
      report.inactiveShards := inactive;
      if w.fetched.None? {
        return report, Some(EventsFailed);
      }
      var es := w.fetched.value;
      var audit := Audit(es, report, w.auditClock, w.auditRaises);
      if audit.Some? {
        return report, Some(AuditFailed);
      }
      stopped := StoreSlice(w.status.value, es, report, w);
    }
  }
}
