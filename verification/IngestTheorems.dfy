/** What a whole audited sweep keeps: counts agree with rows, and a summary row means the slice is
    all there. */
module IngestTheorems {
  import opened Results
  import opened Markets
  import opened Store
  import opened StoreHistory
  import opened Ingest

  /** The row of an exchange-wide halt, if there was one and it was written. */
  function HaltRows(w: World): seq<SystemRow> {
    if w.status.Some? && w.status.value.Halted() && !w.haltRaises
    then [SystemRow(w.haltAt, ExchangeInactive)] else []
  }

  /** The operational rows a sweep has written by the time it stops. */
  function RowsBy(w: World, outcome: Option<IngestError>): seq<SystemRow> {
    if w.status.None? || w.fetched.None? || outcome == Some(HaltNotRecorded) then HaltRows(w)
    else
      var es := w.fetched.value;
      var violations := Violations(MarketsOf(es));
      var audited := HaltRows(w)
        + NoteRows(violations[..FirstRaise(w.auditRaises, |violations|)], w.auditClock);
      if outcome.None? then audited + [SystemRow(w.doneAt, Summary(w.status.value, es))] else audited
  }

  lemma StatusRows(c: Contents, w: World)
    ensures AfterStatus(c, w) == c.(tables := c.tables.(system := c.tables.system + HaltRows(w)))
  {
    assert c.tables.system + [] == c.tables.system;
  }

  lemma AuditRows(c: Contents, w: World, es: seq<NormalizedEvent>)
    ensures var violations := Violations(MarketsOf(es));
            var written := violations[..FirstRaise(w.auditRaises, |violations|)];
            AfterAudit(c, w, es)
            == c.(tables := c.tables.(system := c.tables.system + (HaltRows(w) + NoteRows(written, w.auditClock))))
  {
    StatusRows(c, w);
    hide Violations, MarketsOf, FirstRaise, AfterStatus, HaltRows, NoteRows;
    var violations := Violations(MarketsOf(es));
    var rows := NoteRows(violations[..FirstRaise(w.auditRaises, |violations|)], w.auditClock);
    assert c.tables.system + HaltRows(w) + rows == c.tables.system + (HaltRows(w) + rows);
  }

  /** A sweep that succeeds: every market fetched is one quote appended, in order and under the one
      capture time; every crossed book is one violation row, in order; the reference tables hold
      the last row of each key; the summary row says what the report says; nothing else changes. */
  lemma SweepConserves(c: Contents, w: World)
    requires Outcome(c, w).None?
    ensures var after := Ingested(c, w);
            var es := w.fetched.value;
            var report := FullReport(w.status.value, es, w.throttled);
            && c.begun.None? && after.begun.None?
            && SweptInto(c.tables.(system := after.tables.system), es, true, w.capturedAt, after.tables)
            && report.markets == report.quotes == |after.tables.quotes| - |c.tables.quotes| == |MarketsOf(es)|
            && after.tables.system == c.tables.system + HaltRows(w) + NoteRows(Violations(MarketsOf(es)), w.auditClock)
                 + [SystemRow(w.doneAt, SweepComplete(report.events, report.markets, report.quotes,
                                                      report.crossedBooks, report.inactiveShards))]
            && report.crossedBooks == Tickers(CrossedOf(MarketsOf(es)))
  {
    var es := w.fetched.value;
    Stages(c, w);
    AuditRows(c, w, es);
    SuccessfulSweep(AfterAudit(c, w, es), es, true, w.capturedAt, w.sweepClock, w.fate);
    WholeReport(w.status.value, es, w.throttled);
    hide MarketsOf, Violations, CrossedOf, Tickers, Transact, SweepWrites, NoteRows, HaltRows, FirstRaise, Latest;
    hide FullReport, SweepResult, AfterAudit, Outcome, Ingested, Summary, QuoteRows;
    var notes := NoteRows(Violations(MarketsOf(es)), w.auditClock);
    Regroup(c.tables.system, HaltRows(w), notes, [SystemRow(w.doneAt, Summary(w.status.value, es))]);
  }

  lemma Stages(c: Contents, w: World)
    requires Outcome(c, w).None?
    ensures var es := w.fetched.value;
            var violations := Violations(MarketsOf(es));
            && violations[..FirstRaise(w.auditRaises, |violations|)] == violations
            && SweepResult(AfterAudit(c, w, es), es, true, w.capturedAt, w.fate).Success?
            && AfterAudit(c, w, es).begun == c.begun == None
            && var slice := Transact(AfterAudit(c, w, es), SweepWrites(es, true, w.capturedAt), w.sweepClock, w.fate);
               Ingested(c, w) == slice.(tables := slice.tables.(
                 system := slice.tables.system + [SystemRow(w.doneAt, Summary(w.status.value, es))]))
  {
    hide Violations, MarketsOf, FirstRaise, Transact, SweepWrites, Summary, NoteRows;
  }

  lemma WholeReport(status: ExchangeStatus, es: seq<NormalizedEvent>, throttled: real)
    ensures var report := FullReport(status, es, throttled);
            && report.markets == report.quotes == |MarketsOf(es)|
            && report.crossedBooks == Tickers(CrossedOf(MarketsOf(es)))
            && Summary(status, es) == SweepComplete(report.events, report.markets, report.quotes,
                                                    report.crossedBooks, report.inactiveShards)
  {
    TallyTotals(status, es);
    hide MarketsOf, CrossedOf, Tickers;
  }

  /** A sweep that fails anywhere before its summary leaves, in what is committed, exactly the
      operational rows it had written; when only the summary fails, the whole slice is there too. */
  lemma FailureLeavesOnlyNotes(c: Contents, w: World)
    requires c.begun.None? && Outcome(c, w).Some?
    ensures var outcome, after := Outcome(c, w), Ingested(c, w).Committed();
            var noted := c.tables.(system := c.tables.system + RowsBy(w, outcome));
            if outcome == Some(SummaryNotRecorded)
            then SweptInto(noted, w.fetched.value, true, w.capturedAt, after)
            else after == noted
  {
    StatusRows(c, w);
    if w.fetched.Some? {
      var es := w.fetched.value;
      AuditRows(c, w, es);
      if Outcome(c, w) == Some(SummaryNotRecorded) {
        SuccessfulSweep(AfterAudit(c, w, es), es, true, w.capturedAt, w.sweepClock, w.fate);
      } else {
        FailedSweepCommitsNothing(AfterAudit(c, w, es), es, true, w.capturedAt, w.sweepClock, w.fate);
      }
    }
    hide AfterStatus, AfterAudit, MarketsOf, Violations, Transact, SweepWrites, NoteRows, FirstRaise, Latest;
    hide SweepResult;
  }

  lemma SummaryAmongRows(w: World, outcome: Option<IngestError>, before: seq<SystemRow>)
    requires outcome.None? ==> w.status.Some? && w.fetched.Some?
    ensures var gained := before + RowsBy(w, outcome);
            (exists k :: |before| <= k < |gained| && gained[k].note.SweepComplete?) <==> outcome.None?
  {
    var gained := before + RowsBy(w, outcome);
    if outcome.None? {
      assert gained[|gained| - 1] == SystemRow(w.doneAt, Summary(w.status.value, w.fetched.value));
    } else {
      hide MarketsOf, Tickers, CrossedOf;
    }
  }

  /** A summary row means the slice is all there: among the rows the sweep gained, there is one
      exactly when the sweep succeeded. */
  lemma SummaryIffComplete(c: Contents, w: World)
    requires c.begun.None?
    ensures var outcome, gained := Outcome(c, w), Ingested(c, w).Committed().system;
            && gained == c.tables.system + RowsBy(w, outcome)
            && ((exists k :: |c.tables.system| <= k < |gained| && gained[k].note.SweepComplete?) <==> outcome.None?)
  {
    hide *;
    RowsGained(c, w);
    SummaryAmongRows(w, Outcome(c, w), c.tables.system);
  }

  lemma RowsGained(c: Contents, w: World)
    requires c.begun.None?
    ensures Ingested(c, w).Committed().system == c.tables.system + RowsBy(w, Outcome(c, w))
    ensures Outcome(c, w).None? ==> w.status.Some? && w.fetched.Some?
  {
    if Outcome(c, w).None? {
      AllRowsGained(c, w);
    } else {
      FailureLeavesOnlyNotes(c, w);
      hide Outcome, Ingested, RowsBy, Latest, QuoteRows;
    }
  }

  lemma AllRowsGained(c: Contents, w: World)
    requires Outcome(c, w).None?
    ensures Ingested(c, w).Committed().system == c.tables.system + RowsBy(w, None)
    ensures w.status.Some? && w.fetched.Some?
  {
    var es := w.fetched.value;
    var violations := Violations(MarketsOf(es));
    var notes, last := NoteRows(violations, w.auditClock), [SystemRow(w.doneAt, Summary(w.status.value, es))];
    Stages(c, w);
    AuditRows(c, w, es);
    SuccessfulSweep(AfterAudit(c, w, es), es, true, w.capturedAt, w.sweepClock, w.fate);
    assert RowsBy(w, None) == HaltRows(w) + notes + last;
    hide MarketsOf, Violations, Transact, SweepWrites, NoteRows, HaltRows, FirstRaise, Latest, SweepResult, AfterAudit;
    hide Ingested, Outcome, Summary, QuoteRows, RowsBy;
    Regroup(c.tables.system, HaltRows(w), notes, last);
  }

  lemma Regroup(a: seq<SystemRow>, b: seq<SystemRow>, c: seq<SystemRow>, d: seq<SystemRow>)
    ensures a + (b + c) + d == a + (b + c + d) == a + b + c + d
  {}
}
