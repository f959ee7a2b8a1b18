/** Replay of interleaved symbols: grouped by symbol first, or in one shared pass over a set of
    books. The two differ in the order of their code; their results are proved equal. */
module SharedReplays {
  import opened Types
  import opened Ranking
  import opened Checksum
  import opened Books
  import opened Events
  import opened Replays

  datatype AggregateConfig = AggregateConfig(replay: Config, perSymbolSequences: bool)

  function SymbolConfig(ac: AggregateConfig): Config {
    ac.replay.(sequences := ac.replay.sequences && ac.perSymbolSequences)
  }

  datatype Summary = Summary(symbolId: nat, eventCount: nat, firstSequence: nat, lastSequence: nat, firstTimestamp: int,
                             lastTimestamp: int, valid: bool, logChecksum: int, bookChecksum: int, executionChecksum: int,
                             diagnosticsChecksum: int, diagnosticCount: nat, errorCount: nat, warningCount: nat,
                             diagnostics: seq<Diagnostic>, error: Option<Reason>)

  datatype Shared = Shared(summary: Summary, expected: nat, last: int, hasLast: bool, failed: bool)

  const NEW_SHARED := Shared(Summary(0, 0, 0, 0, 0, 0, true, 0, 0, 0, 0, 0, 0, 0, [], None), 0, 0, false, false)

  // ----- one event of the shared pass

  function Counted(st: Shared, e: Event, h: Hash): Shared {
    var s := if st.summary.eventCount > 0 then st.summary
             else st.summary.(symbolId := e.symbolId, firstSequence := e.sequence, firstTimestamp := e.timestamp,
                              logChecksum := FNV_OFFSET_BASIS, diagnosticsChecksum := FNV_OFFSET_BASIS,
                              executionChecksum := FNV_OFFSET_BASIS);
    st.(summary := s.(eventCount := s.eventCount + 1, lastSequence := e.sequence, lastTimestamp := e.timestamp,
                      logChecksum := AppendEvent(h, s.logChecksum, e)))
  }

  function Failed(st: Shared, e: Event, reason: Reason, h: Hash): Shared {
    var s := st.summary;
    var d := Diagnostic(if s.eventCount > 0 then s.eventCount - 1 else 0, e.sequence, e.symbolId, reason);
    st.(failed := true,
        summary := s.(diagnosticsChecksum := AppendDiagnostic(h, s.diagnosticsChecksum, d), errorCount := s.errorCount + 1,
                      diagnostics := s.diagnostics + [d], valid := false, error := Some(reason)))
  }

  /** A symbol without a book behaves like one with an empty book. */
  function BookOr(ob: Option<Book>, symbol: nat): Book {
    if ob == None then Empty(symbol) else ob.value
  }

  function StreamOf(st: Shared): Stream {
    Stream(st.expected, st.last, st.hasLast, st.summary.eventCount, st.failed)
  }

  function OnStream(st: Shared, s: Stream): Shared {
    st.(expected := s.expected, last := s.last, hasLast := s.hasLast)
  }

  ghost function SharedRefused(ob: Option<Book>, e: Event): Option<Reason> {
    if e.symbolId == INVALID_ID then Some(InvalidSymbol)
    else if Malformed(e) != None then Malformed(e)
    else Unfit(BookOr(ob, e.symbolId), e)
  }

  /** Validate, apply, check the book, and only then count the activity. */
  ghost function SharedChecked(ob: Option<Book>, st: Shared, e: Event, c: Config, h: Hash): (Option<Book>, Shared) {
    if SharedRefused(ob, e) != None then (ob, Failed(st, e, SharedRefused(ob, e).value, h))
    else
      var (b', failure) := Applied(BookOr(ob, e.symbolId), e);
      if failure != None then (Some(b'), Failed(st, e, ApplyFailed(e.kind), h))
      else if BookCheck(b', c) != None then (Some(b'), Failed(st, e, BookCheck(b', c).value, h))
      else (Some(b'), SharedActivity(st, e, h))
  }

  function SharedActivity(st: Shared, e: Event, h: Hash): Shared {
    if e.kind == ExecuteEvent || e.kind == TradeEvent then
      st.(summary := st.summary.(executionChecksum := AppendEvent(h, st.summary.executionChecksum, e)))
    else st
  }

  ghost function SharedStep(ob: Option<Book>, st0: Shared, e: Event, c: Config, h: Hash): (Option<Book>, Shared) {
    var st := Counted(st0, e, h);
    if st.failed then (ob, st)
    else
      var (s1, gap) := Sequenced(StreamOf(st), e, c);
      if gap != None then (ob, Failed(OnStream(st, s1), e, gap.value, h))
      else
        var (s2, reversal) := Timed(s1, e, c);
        if reversal != None then (ob, Failed(OnStream(st, s2), e, reversal.value, h))
        else SharedChecked(ob, OnStream(st, s2), e, c, h)
  }

  ghost function SharedRun(es: seq<Event>, c: Config, h: Hash): (Option<Book>, Shared) {
    if es == [] then (None, NEW_SHARED)
    else
      var (ob, st) := SharedRun(es[..|es| - 1], c, h);
      SharedStep(ob, st, es[|es| - 1], c, h)
  }

  /** The deferred check of Light mode, the book checksum, and the diagnostic count. */
  function SharedSummary(symbol: nat, ob: Option<Book>, st: Shared, c: Config, h: Hash): Summary {
    var late := ob != None && !st.failed && c.bookState && c.mode == Light && TopOfBook(ob.value) != None;
    var st' := if late then Failed(st, FinalEvent(symbol), TopOfBook(ob.value).value, h) else st;
    st'.summary.(bookChecksum := BookChecksum(h.mix, BookOr(ob, symbol)), diagnosticCount := |st'.summary.diagnostics|)
  }

  function FinalEvent(symbol: nat): Event {
    Event(0, 0, symbol, HeartbeatEvent, NoSide, 0, 0, INVALID_ID, 0, 0)
  }

  /** What grouped replay reports for one symbol. */
  ghost function GroupedSummary(symbol: nat, es: seq<Event>, c: Config, h: Hash): Summary {
    SummaryFrom(symbol, es, Replayed(Empty(symbol), es, c, h))
  }

  function SummaryFrom(symbol: nat, es: seq<Event>, r: Result): Summary {
    var first, last := if es == [] then FinalEvent(0) else es[0], if es == [] then FinalEvent(0) else es[|es| - 1];
    Summary(symbol, |es|, first.sequence, last.sequence, first.timestamp, last.timestamp, r.valid, r.logChecksum, r.bookChecksum,
            r.executionChecksum, r.diagnosticsChecksum, |r.diagnostics|, r.errorCount, r.warningCount, r.diagnostics, r.error)
  }

  // ----- executions and trades never cross a book that was not crossed

  ghost predicate Apart(b: Book) {
    forall p, q :: p in b.bids && q in b.asks ==> p < q
  }

  lemma ApartIffTopIsFine(b: Book)
    ensures TopOfBook(b) == None <==> Apart(b)
  {
    if b.bids != map[] && b.asks != map[] {
      assert |b.bids| == |b.bids.Keys| && |b.asks| == |b.asks.Keys|;
      assert b.bids.Keys != {} && b.asks.Keys != {};
      var bid, ask := Best(Buy, b.bids.Keys), Best(Sell, b.asks.Keys);
      assert bid in b.bids && ask in b.asks;
      if bid < ask {
        forall p, q | p in b.bids && q in b.asks ensures p < q {
          assert p == bid || Better(Buy, bid, p);
          assert q == ask || Better(Sell, ask, q);
        }
      }
    }
  }

  lemma DropShrinks(b: Book, id: nat)
    ensures Drop(b, id).bids.Keys <= b.bids.Keys && Drop(b, id).asks.Keys <= b.asks.Keys
  {
  }

  /** Executions, trades, cancels and heartbeats take nothing across the spread. */
  lemma QuietEventsStayApart(b: Book, e: Event)
    requires e.kind == ExecuteEvent || e.kind == TradeEvent || e.kind == CancelEvent || e.kind == HeartbeatEvent
    requires TopOfBook(b) == None
    ensures TopOfBook(Applied(b, e).0) == None
  {
    ApartIffTopIsFine(b);
    DropShrinks(b, e.orderId);
    var b' := Applied(b, e).0;
    assert b'.bids.Keys <= b.bids.Keys && b'.asks.Keys <= b.asks.Keys;
    forall p, q | p in b'.bids && q in b'.asks ensures p < q {
      assert p in b.bids.Keys && q in b.asks.Keys;
    }
    ApartIffTopIsFine(b');
  }

  // ----- the two passes, side by side

  /** Everything the shared state of a symbol has in common with the engine that replays the symbol alone. */
  ghost predicate Together(symbol: nat, ob: Option<Book>, st: Shared, f: Feed, c: Config) {
    && f.book == BookOr(ob, symbol) && f.book.symbol == symbol && Sound(f.book)
    && st.failed == f.stream.halted
    && st.summary.valid == f.result.valid == !st.failed
    && (!st.failed ==> StreamOf(st) == f.stream && f.result.processed == st.summary.eventCount)
    && (!st.failed && c.bookState ==> TopOfBook(f.book) == None)
    && SameFindings(st.summary, f.result)
  }

  predicate SameFindings(s: Summary, r: Result) {
    && (s.eventCount > 0 ==> s.executionChecksum == r.executionChecksum && s.diagnosticsChecksum == r.diagnosticsChecksum)
    && s.errorCount == r.errorCount && s.warningCount == r.warningCount && s.diagnostics == r.diagnostics
    && s.error == r.error
  }

  lemma StepsTogether(symbol: nat, ob: Option<Book>, st: Shared, f: Feed, e: Event, c: Config, h: Hash)
    requires Together(symbol, ob, st, f, c) && e.symbolId == symbol
    requires st.summary.eventCount == 0 ==> f.result.executionChecksum == f.result.diagnosticsChecksum == FNV_OFFSET_BASIS
    ensures var (ob', st') := SharedStep(ob, st, e, c, h); Together(symbol, ob', st', Step(f, e, c, h), c)
  {
    var st1 := Counted(st, e, h);
    if st.failed {
      CountingKeeps(symbol, ob, st, f, e, c, h);
    } else {
      var (s1, gap) := Sequenced(f.stream, e, c);
      var (s2, reversal) := Timed(s1, e, c);
      CountedStream(st, e, c, h);
      if gap != None {
        HaltsTogether(symbol, ob, OnStream(st1, s1), f, s1, e, gap.value, c, h);
      } else if reversal != None {
        HaltsTogether(symbol, ob, OnStream(st1, s2), f, s2, e, reversal.value, c, h);
      } else {
        CheckedTogether(symbol, ob, OnStream(st1, s2), f, s2, e, c, h);
      }
    }
  }

  lemma CountingKeeps(symbol: nat, ob: Option<Book>, st: Shared, f: Feed, e: Event, c: Config, h: Hash)
    requires Together(symbol, ob, st, f, c) && st.failed
    requires st.summary.eventCount == 0 ==> f.result.executionChecksum == f.result.diagnosticsChecksum == FNV_OFFSET_BASIS
    ensures Together(symbol, ob, Counted(st, e, h), f, c)
  {
  }

  /** Counting an event moves no cursor, so both passes see the same gap or reversal. */
  lemma CountedStream(st: Shared, e: Event, c: Config, h: Hash)
    ensures var s := StreamOf(st); var s' := StreamOf(Counted(st, e, h));
      && s' == s.(index := s.index + 1)
      && Sequenced(s', e, c) == (Sequenced(s, e, c).0.(index := s.index + 1), Sequenced(s, e, c).1)
      && var s1 := Sequenced(s, e, c).0;
      Timed(s1.(index := s.index + 1), e, c) == (Timed(s1, e, c).0.(index := s.index + 1), Timed(s1, e, c).1)
      && s1.index == s.index && Timed(s1, e, c).0.index == s.index && s1.halted == s.halted
      && Timed(s1, e, c).0.halted == s.halted
  {
  }

  lemma HaltsTogether(symbol: nat, ob: Option<Book>, st: Shared, f: Feed, s: Stream, e: Event, reason: Reason,
                      c: Config, h: Hash)
    requires f.book == BookOr(ob, symbol) && f.book.symbol == symbol && Sound(f.book)
    requires st.summary.eventCount == s.index + 1 && SameFindings(st.summary, f.result)
    ensures Together(symbol, ob, Failed(st, e, reason, h), Halt(f.book, s, f.result, e, reason, h), c)
  {
  }

  lemma CheckedTogether(symbol: nat, ob: Option<Book>, st: Shared, f: Feed, s: Stream, e: Event, c: Config, h: Hash)
    requires f.book == BookOr(ob, symbol) && f.book.symbol == symbol && Sound(f.book) && e.symbolId == symbol
    requires !st.failed && !s.halted && st.summary.valid && f.result.valid
    requires st.expected == s.expected && st.last == s.last && st.hasLast == s.hasLast
    requires st.summary.eventCount == s.index + 1 && f.result.processed == s.index
    requires c.bookState ==> TopOfBook(f.book) == None
    requires SameFindings(st.summary, f.result)
    ensures var (ob', st') := SharedChecked(ob, st, e, c, h);
      Together(symbol, ob', st', Checked(f.book, s, f.result, e, c, h), c)
  {
    if Replays.Refused(f.book, e) == None {
      AcceptedApplies(f.book, e);
      AppliedSound(f.book, e);
      if c.bookState && (e.kind == ExecuteEvent || e.kind == TradeEvent) {
        QuietEventsStayApart(f.book, e);
      }
    }
  }

  predicate SameCounts(s: Summary, t: Summary) {
    && s.symbolId == t.symbolId && s.eventCount == t.eventCount && s.logChecksum == t.logChecksum
    && s.firstSequence == t.firstSequence && s.firstTimestamp == t.firstTimestamp
    && s.lastSequence == t.lastSequence && s.lastTimestamp == t.lastTimestamp
  }

  lemma CheckedCounts(ob: Option<Book>, st: Shared, e: Event, c: Config, h: Hash)
    ensures SameCounts(SharedChecked(ob, st, e, c, h).1.summary, st.summary)
  {
  }

  /** Whatever becomes of an event, it is counted. */
  lemma StepCounts(ob: Option<Book>, st: Shared, e: Event, c: Config, h: Hash)
    ensures SameCounts(SharedStep(ob, st, e, c, h).1.summary, Counted(st, e, h).summary)
  {
    var st1 := Counted(st, e, h);
    var (s1, gap) := Sequenced(StreamOf(st1), e, c);
    CheckedCounts(ob, OnStream(st1, Timed(s1, e, c).0), e, c, h);
  }

  lemma {:induction false} PassesTogether(symbol: nat, es: seq<Event>, c: Config, h: Hash, log: int)
    requires forall i :: 0 <= i < |es| ==> es[i].symbolId == symbol
    ensures var (ob, st) := SharedRun(es, c, h);
      && Together(symbol, ob, st, Fed(Feed(Empty(symbol), START, Begun(log)), es, c, h), c)
      && st.summary.eventCount == |es|
    decreases |es|
  {
    var f := Feed(Empty(symbol), START, Begun(log));
    if es == [] {
      assert TopOfBook(f.book) == None;
    } else {
      var init, e := es[..|es| - 1], es[|es| - 1];
      PassesTogether(symbol, init, c, h, log);
      FirstChecksums(f, init, c, h);
      var (ob, st) := SharedRun(init, c, h);
      StepCounts(ob, st, e, c, h);
      StepsTogether(symbol, ob, st, Fed(f, init, c, h), e, c, h);
    }
  }

  lemma FirstChecksums(f: Feed, es: seq<Event>, c: Config, h: Hash)
    requires f.result.executionChecksum == f.result.diagnosticsChecksum == FNV_OFFSET_BASIS
    ensures es == [] ==> Fed(f, es, c, h).result.executionChecksum == Fed(f, es, c, h).result.diagnosticsChecksum == FNV_OFFSET_BASIS
  {
  }

  /** The parts of a summary that only count events. */
  lemma {:induction false} CountsTogether(symbol: nat, es: seq<Event>, c: Config, h: Hash)
    requires es != [] && forall i :: 0 <= i < |es| ==> es[i].symbolId == symbol
    ensures CountsOf(SharedRun(es, c, h).1.summary, symbol, es, h)
    decreases |es|
  {
    var init, e := es[..|es| - 1], es[|es| - 1];
    var (ob, st) := SharedRun(init, c, h);
    StepCounts(ob, st, e, c, h);
    if init != [] {
      CountsTogether(symbol, init, c, h);
      assert init[0] == es[0];
    }
    CountedFields(symbol, es, st, h);
  }

  predicate CountsOf(s: Summary, symbol: nat, es: seq<Event>, h: Hash)
    requires es != []
  {
    && s.symbolId == symbol && s.eventCount == |es| && s.logChecksum == ChecksumEvents(h, es)
    && s.firstSequence == es[0].sequence && s.firstTimestamp == es[0].timestamp
    && s.lastSequence == es[|es| - 1].sequence && s.lastTimestamp == es[|es| - 1].timestamp
  }

  lemma CountedFields(symbol: nat, es: seq<Event>, st: Shared, h: Hash)
    requires es != [] && es[|es| - 1].symbolId == symbol
    requires if |es| == 1 then st == NEW_SHARED else CountsOf(st.summary, symbol, es[..|es| - 1], h)
    ensures CountsOf(Counted(st, es[|es| - 1], h).summary, symbol, es, h)
  {
  }

  lemma {:induction false} LogIsKept(f: Feed, es: seq<Event>, c: Config, h: Hash)
    ensures Fed(f, es, c, h).result.logChecksum == f.result.logChecksum
    decreases |es|
  {
    if es != [] {
      LogIsKept(f, es[..|es| - 1], c, h);
    }
  }

  /** One symbol: the shared pass reports exactly what grouped replay reports, in every field. */
  lemma SummariesAgree(symbol: nat, es: seq<Event>, c: Config, h: Hash)
    requires es != [] && forall i :: 0 <= i < |es| ==> es[i].symbolId == symbol
    ensures var (ob, st) := SharedRun(es, c, h); SharedSummary(symbol, ob, st, c, h) == GroupedSummary(symbol, es, c, h)
  {
    var log := ChecksumEvents(h, es);
    PassesTogether(symbol, es, c, h, log);
    CountsTogether(symbol, es, c, h);
    LogIsKept(Feed(Empty(symbol), START, Begun(log)), es, c, h);
  }
}
