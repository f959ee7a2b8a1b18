/** Replay of many symbols at once, grouped and shared, and their parity. */
module AggregateReplays {
  import opened Types
  import opened Checksum
  import opened Books
  import opened OrderBooks
  import opened Events
  import opened Replays
  import opened ReplayEngines
  import opened SharedReplays
  import opened MultiSymbolBooks

  function Filter(es: seq<Event>, symbol: nat): (fs: seq<Event>)
    ensures forall i :: 0 <= i < |fs| ==> fs[i].symbolId == symbol
  {
    if es == [] then [] else Filter(es[..|es| - 1], symbol) + if es[|es| - 1].symbolId == symbol then [es[|es| - 1]] else []
  }

  function SymbolsOf(es: seq<Event>): set<nat> {
    if es == [] then {} else SymbolsOf(es[..|es| - 1]) + {es[|es| - 1].symbolId}
  }

  lemma {:induction false} PresentIffFiltered(es: seq<Event>, symbol: nat)
    ensures symbol in SymbolsOf(es) <==> Filter(es, symbol) != []
  {
    if es != [] {
      PresentIffFiltered(es[..|es| - 1], symbol);
    }
  }

  datatype Aggregate = Aggregate(totalEvents: nat, symbolCount: nat, combined: int, symbols: seq<Summary>, error: bool, checksum: int)

  // ----- checksums over summaries

  function SummaryBookValues(ss: seq<Summary>): seq<int> {
    if ss == [] then [] else SummaryBookValues(ss[..|ss| - 1]) + [ss[|ss| - 1].symbolId, ss[|ss| - 1].bookChecksum]
  }

  function CombinedOf(mix: Mix, ss: seq<Summary>): int {
    Fold(mix, FNV_OFFSET_BASIS, [|ss|] + SummaryBookValues(ss))
  }

  function SummaryValues(h: Hash, s: Summary): seq<int> {
    [s.symbolId, s.eventCount, s.firstSequence, s.lastSequence, s.firstTimestamp, s.lastTimestamp, if s.valid then 1 else 0,
     s.logChecksum, s.bookChecksum, s.executionChecksum, s.diagnosticsChecksum, s.diagnosticCount, s.errorCount, s.warningCount]
    + if s.error == None then [0] else h.text(s.error.value)
  }

  function AllValues(h: Hash, ss: seq<Summary>): seq<int> {
    if ss == [] then [] else AllValues(h, ss[..|ss| - 1]) + SummaryValues(h, ss[|ss| - 1])
  }

  function AggregateChecksum(h: Hash, total: nat, combined: int, ss: seq<Summary>, error: bool): int {
    Fold(h.mix, FNV_OFFSET_BASIS, [total, |ss|, combined] + AllValues(h, ss) + [if error then 1 else 0])
  }

  function Assembled(h: Hash, total: nat, ss: seq<Summary>, error: bool): Aggregate {
    var combined := CombinedOf(h.mix, ss);
    Aggregate(total, |ss|, combined, ss, error, AggregateChecksum(h, total, combined, ss, error))
  }

  /** What grouped replay reports: one summary per symbol, by symbol, each from that symbol's events alone. */
  ghost function GroupedAggregate(es: seq<Event>, ac: AggregateConfig, h: Hash): Aggregate {
    Assembled(h, |es|, GroupedSummaries(es, SymbolConfig(ac), h), false)
  }

  // ----- grouped replay

  method Group(es: seq<Event>) returns (grouped: map<nat, seq<Event>>)
    ensures grouped.Keys == SymbolsOf(es) && forall s :: s in grouped ==> grouped[s] == Filter(es, s)
  {
    grouped := map[];
    for i := 0 to |es|
      invariant grouped.Keys == SymbolsOf(es[..i]) && forall s :: s in grouped ==> grouped[s] == Filter(es[..i], s)
    {
      var e := es[i];
      assert es[..i + 1][..i] == es[..i];
      PresentIffFiltered(es[..i], e.symbolId);
      var queue := if e.symbolId in grouped then grouped[e.symbolId] else [];
      grouped := grouped[e.symbolId := queue + [e]];
    }
    assert es[..|es|] == es;
  }

  method GroupedSymbol(symbol: nat, es: seq<Event>, c: Config, h: Hash) returns (s: Summary)
    ensures s == GroupedSummary(symbol, es, c, h)
  {
    var engine := new ReplayEngine(symbol, c, h);
    var result := engine.ReplayEvents(es);
    return SummaryFrom(symbol, es, result);
  }

  ghost function Mapped(ps: seq<nat>, summary: nat -> Summary): seq<Summary> {
    seq(|ps|, i requires 0 <= i < |ps| => summary(ps[i]))
  }

  ghost function SummaryOf(es: seq<Event>, c: Config, h: Hash): nat -> Summary {
    (s: nat) => GroupedSummary(s, Filter(es, s), c, h)
  }

  ghost function GroupedSummaries(es: seq<Event>, c: Config, h: Hash): seq<Summary> {
    Mapped(SortedSymbols(SymbolsOf(es)), SummaryOf(es, c, h))
  }

  method SummarizeAll(grouped: map<nat, seq<Event>>, ps: seq<nat>, c: Config, h: Hash, ghost summary: nat -> Summary)
    returns (summaries: seq<Summary>)
    requires forall k :: 0 <= k < |ps| ==> ps[k] in grouped && GroupedSummary(ps[k], grouped[ps[k]], c, h) == summary(ps[k])
    ensures summaries == Mapped(ps, summary)
  {
    summaries := [];
    for i := 0 to |ps|
      invariant |summaries| == i && forall k :: 0 <= k < i ==> summaries[k] == summary(ps[k])
    {
      var s := GroupedSymbol(ps[i], grouped[ps[i]], c, h);
      summaries := summaries + [s];
    }
  }

  lemma OneByOne(grouped: map<nat, seq<Event>>, es: seq<Event>, c: Config, h: Hash, s: nat)
    requires s in grouped && grouped[s] == Filter(es, s)
    ensures GroupedSummary(s, grouped[s], c, h) == SummaryOf(es, c, h)(s)
  {
  }

  method ReplayBySymbol(es: seq<Event>, ac: AggregateConfig, h: Hash) returns (a: Aggregate)
    ensures a == GroupedAggregate(es, ac, h)
  {
    var c := SymbolConfig(ac);
    var grouped := Group(es);
    var ps := SortedSymbols(grouped.Keys);
    forall k | 0 <= k < |ps|
      ensures ps[k] in grouped && GroupedSummary(ps[k], grouped[ps[k]], c, h) == SummaryOf(es, c, h)(ps[k])
    {
      OneByOne(grouped, es, c, h, ps[k]);
    }
    var summaries := SummarizeAll(grouped, ps, c, h, SummaryOf(es, c, h));
    return Assembled(h, |es|, summaries, false);
  }

  // ----- shared replay, one event at a time

  /** Looks an order up in its symbol's book; a symbol without a book has none. */
  method FindShared(bookSet: MultiSymbolBookSet, symbol: nat, id: nat) returns (order: Option<Order>)
    requires bookSet.Valid()
    ensures var b := BookAt(bookSet.contents, symbol);
      order == if b != None && Has(b.value, id) then Some(Find(b.value, id)) else None
  {
    if symbol !in bookSet.books {
      return None;
    }
    order := bookSet.books[symbol].FindOrder(id);
  }

  method ValidateShared(bookSet: MultiSymbolBookSet, e: Event) returns (reason: Option<Reason>)
    requires bookSet.Valid()
    ensures reason == SharedRefused(BookAt(bookSet.contents, e.symbolId), e)
  {
    if e.symbolId == INVALID_ID { return Some(InvalidSymbol); }
    reason := ValidateShape(e);
    if reason != None { return; }
    if e.kind == AddEvent {
      var order := FindShared(bookSet, e.symbolId, e.orderId);
      if order != None { return Some(DuplicateOrderId); }
    }
    if e.kind == SnapshotEvent && e.orderId != INVALID_ID {
      if !ValidSide(e.side) { return Some(InvalidSnapshotSide); }
      if e.price <= 0 { return Some(InvalidSnapshotPrice); }
      if e.quantity <= 0 { return Some(InvalidSnapshotQuantity); }
    }
    if e.kind == CancelEvent || e.kind == ReplaceEvent || e.kind == ExecuteEvent {
      var order := FindShared(bookSet, e.symbolId, e.orderId);
      if order == None { return Some(UnknownOrderId(e.kind)); }
      if (e.kind == CancelEvent || e.kind == ExecuteEvent) && e.quantity > order.value.quantity { return Some(ExceedsResting); }
    }
    return None;
  }

  /** Applies an event to its symbol's book and checks the book; says what went wrong, if anything. */
  method ApplyShared(bookSet: MultiSymbolBookSet, e: Event, c: Config) returns (problem: Option<Reason>)
    requires bookSet.Valid() && e.symbolId != INVALID_ID
    modifies bookSet, bookSet.Repr
    ensures bookSet.Valid() && fresh(bookSet.Repr - old(bookSet.Repr))
    ensures forall s: nat :: s != e.symbolId ==> BookAt(bookSet.contents, s) == BookAt(old(bookSet.contents), s)
    ensures var (b', failure) := Applied(BookOr(BookAt(old(bookSet.contents), e.symbolId), e.symbolId), e);
      && BookAt(bookSet.contents, e.symbolId) == Some(b')
      && problem == if failure != None then Some(ApplyFailed(e.kind)) else BookCheck(b', c)
  {
    var ok := bookSet.Apply(e);
    if !ok {
      return Some(ApplyFailed(e.kind));
    }
    problem := ValidateBookAfterApply(bookSet.books[e.symbolId], c);
  }

  /** The part of a shared step after the sequence and timestamp checks. */
  method SharedCheckAndApply(bookSet: MultiSymbolBookSet, st: Shared, e: Event, c: Config, h: Hash)
    returns (st': Shared)
    requires bookSet.Valid()
    modifies bookSet, bookSet.Repr
    ensures bookSet.Valid() && fresh(bookSet.Repr - old(bookSet.Repr))
    ensures (BookAt(bookSet.contents, e.symbolId), st') == SharedChecked(BookAt(old(bookSet.contents), e.symbolId), st, e, c, h)
    ensures forall s: nat :: s != e.symbolId ==> BookAt(bookSet.contents, s) == BookAt(old(bookSet.contents), s)
  {
    var refusal := ValidateShared(bookSet, e);
    if refusal != None {
      return Failed(st, e, refusal.value, h);
    }
    var problem := ApplyShared(bookSet, e, c);
    if problem != None {
      return Failed(st, e, problem.value, h);
    }
    st' := st;
    if e.kind == ExecuteEvent || e.kind == TradeEvent {
      st' := st'.(summary := st'.summary.(executionChecksum := AppendEvent(h, st'.summary.executionChecksum, e)));
    }
  }

  /** Counting an event and checking its place in the stream: whether the step goes on, and from which state. */
  method CheckStream(st: Shared, e: Event, c: Config, h: Hash, ghost b: Option<Book>) returns (st': Shared, on: bool)
    ensures SharedStep(b, st, e, c, h) == if on then SharedChecked(b, st', e, c, h) else (b, st')
  {
    st' := Counted(st, e, h);
    if st'.failed {
      return st', false;
    }
    if c.sequences {
      if st'.expected == 0 {
        st' := st'.(expected := e.sequence);
      }
      if e.sequence != st'.expected {
        return Failed(st', e, SequenceGap(st'.expected, e.sequence), h), false;
      }
      st' := st'.(expected := st'.expected + 1);
    }
    if c.timestamps {
      if st'.hasLast && e.timestamp < st'.last {
        return Failed(st', e, TimestampReversal(st'.last, e.timestamp), h), false;
      }
      st' := st'.(last := e.timestamp, hasLast := true);
    }
    return st', true;
  }

  method SharedEvent(bookSet: MultiSymbolBookSet, st: Shared, e: Event, c: Config, h: Hash) returns (st': Shared)
    requires bookSet.Valid()
    modifies bookSet, bookSet.Repr
    ensures bookSet.Valid() && fresh(bookSet.Repr - old(bookSet.Repr))
    ensures (BookAt(bookSet.contents, e.symbolId), st') == SharedStep(BookAt(old(bookSet.contents), e.symbolId), st, e, c, h)
    ensures forall s: nat :: s != e.symbolId ==> BookAt(bookSet.contents, s) == BookAt(old(bookSet.contents), s)
  {
    var on;
    st', on := CheckStream(st, e, c, h, BookAt(bookSet.contents, e.symbolId));
    if on {
      st' := SharedCheckAndApply(bookSet, st', e, c, h);
    }
  }

  // ----- the whole shared pass

  /** After the events `es`, each symbol's book and state are what its own events made of them. */
  ghost predicate InStep(contents: BookMap, states: map<nat, Shared>, es: seq<Event>, c: Config, h: Hash) {
    && states.Keys == SymbolsOf(es)
    && forall s: nat :: SymbolInStep(contents, states, es, s, c, h)
  }

  ghost predicate SymbolInStep(contents: BookMap, states: map<nat, Shared>, es: seq<Event>, s: nat, c: Config,
                               h: Hash) {
    (BookAt(contents, s), StateAt(states, s)) == SharedRun(Filter(es, s), c, h)
  }

  function StateAt(states: map<nat, Shared>, symbol: nat): Shared {
    if symbol in states then states[symbol] else NEW_SHARED
  }

  lemma SymbolSteps(contents: BookMap, states: map<nat, Shared>, contents': BookMap, st': Shared, es: seq<Event>,
                    e: Event, c: Config, h: Hash)
    requires SymbolInStep(contents, states, es, e.symbolId, c, h)
    requires (BookAt(contents', e.symbolId), st') == SharedStep(BookAt(contents, e.symbolId), StateAt(states, e.symbolId), e, c, h)
    ensures SymbolInStep(contents', states[e.symbolId := st'], es + [e], e.symbolId, c, h)
  {
    var fs := Filter(es, e.symbolId);
    assert (es + [e])[..|es|] == es;
    assert Filter(es + [e], e.symbolId) == fs + [e];
    assert (fs + [e])[..|fs|] == fs;
  }

  lemma StaysInStep(contents: BookMap, states: map<nat, Shared>, contents': BookMap, st': Shared, es: seq<Event>,
                    e: Event, c: Config, h: Hash)
    requires InStep(contents, states, es, c, h)
    requires (BookAt(contents', e.symbolId), st') == SharedStep(BookAt(contents, e.symbolId), StateAt(states, e.symbolId), e, c, h)
    requires forall s: nat :: s != e.symbolId ==> BookAt(contents', s) == BookAt(contents, s)
    ensures InStep(contents', states[e.symbolId := st'], es + [e], c, h)
  {
    var states', more := states[e.symbolId := st'], es + [e];
    assert more[..|more| - 1] == es;
    assert states'.Keys == states.Keys + {e.symbolId};
    forall s: nat ensures SymbolInStep(contents', states', more, s, c, h) {
      assert SymbolInStep(contents, states, es, s, c, h);
      if s == e.symbolId {
        SymbolSteps(contents, states, contents', st', es, e, c, h);
      } else {
        assert Filter(more, s) == Filter(es, s);
      }
    }
  }

  method SharedPass(es: seq<Event>, c: Config, h: Hash) returns (bookSet: MultiSymbolBookSet, states: map<nat, Shared>)
    ensures fresh(bookSet) && fresh(bookSet.Repr) && bookSet.Valid() && InStep(bookSet.contents, states, es, c, h)
  {
    bookSet := new MultiSymbolBookSet();
    states := map[];
    for i := 0 to |es|
      invariant fresh(bookSet) && fresh(bookSet.Repr) && bookSet.Valid()
      invariant InStep(bookSet.contents, states, es[..i], c, h)
    {
      var e := es[i];
      ghost var before := bookSet.contents;
      var st := SharedEvent(bookSet, StateAt(states, e.symbolId), e, c, h);
      StaysInStep(before, states, bookSet.contents, st, es[..i], e, c, h);
      assert es[..i + 1] == es[..i] + [e];
      states := states[e.symbolId := st];
    }
    assert es[..|es|] == es;
  }

  method FinishSymbol(bookSet: MultiSymbolBookSet, symbol: nat, st: Shared, c: Config, h: Hash) returns (s: Summary)
    requires bookSet.Valid()
    ensures s == SharedSummary(symbol, BookAt(bookSet.contents, symbol), st, c, h)
  {
    var st' := st;
    var checksum;
    if symbol in bookSet.books {
      var book := bookSet.books[symbol];
      if !st.failed && c.bookState && c.mode == Light {
        var violation := ValidateFullBook(book, true);
        if violation != None {
          st' := Failed(st', FinalEvent(symbol), violation.value, h);
        }
      }
      checksum := book.Checksum(h.mix);
    } else {
      var none := new OrderBook(symbol);
      checksum := none.Checksum(h.mix);
    }
    return st'.summary.(bookChecksum := checksum, diagnosticCount := |st'.summary.diagnostics|);
  }

  method FinishAll(bookSet: MultiSymbolBookSet, states: map<nat, Shared>, ps: seq<nat>, c: Config, h: Hash,
                   ghost all: seq<Summary>)
    returns (summaries: seq<Summary>)
    requires bookSet.Valid() && (forall k :: 0 <= k < |ps| ==> ps[k] in states) && |all| == |ps|
    requires forall k :: 0 <= k < |ps| ==> all[k] == SharedSummary(ps[k], BookAt(bookSet.contents, ps[k]), states[ps[k]], c, h)
    ensures summaries == all
  {
    summaries := [];
    ghost var contents := bookSet.contents;
    for i := 0 to |ps|
      invariant bookSet.Valid() && bookSet.contents == contents && summaries == all[..i]
    {
      var s := FinishSymbol(bookSet, ps[i], states[ps[i]], c, h);
      summaries := summaries + [s];
    }
  }

  /** The summaries of the shared pass, one per symbol, are those of grouped replay. */
  lemma AllAgree(contents: BookMap, states: map<nat, Shared>, es: seq<Event>, c: Config, h: Hash)
    requires InStep(contents, states, es, c, h)
    ensures FinishedFrom(GroupedSummaries(es, c, h), contents, states, c, h)
  {
    var ps := SortedSymbols(states.Keys);
    forall k | 0 <= k < |ps|
      ensures SummaryOf(es, c, h)(ps[k]) == SharedSummary(ps[k], BookAt(contents, ps[k]), states[ps[k]], c, h)
    {
      SymbolAgrees(contents, states, es, ps[k], c, h);
    }
  }

  lemma SymbolAgrees(contents: BookMap, states: map<nat, Shared>, es: seq<Event>, symbol: nat, c: Config, h: Hash)
    requires InStep(contents, states, es, c, h) && symbol in states
    ensures SharedSummary(symbol, BookAt(contents, symbol), states[symbol], c, h) == GroupedSummary(symbol, Filter(es, symbol), c, h)
  {
    assert SymbolInStep(contents, states, es, symbol, c, h);
    PresentIffFiltered(es, symbol);
    SummariesAgree(symbol, Filter(es, symbol), c, h);
  }

  ghost predicate FinishedFrom(ss: seq<Summary>, contents: BookMap, states: map<nat, Shared>, c: Config, h: Hash) {
    var ps := SortedSymbols(states.Keys);
    |ps| == |ss| && forall k :: 0 <= k < |ps| ==> ss[k] == SharedSummary(ps[k], BookAt(contents, ps[k]), states[ps[k]], c, h)
  }

  /** The cross-check of the combined checksums never fails. */
  method CombinedMismatch(bookSet: MultiSymbolBookSet, ghost states: map<nat, Shared>, summaries: seq<Summary>,
                          ghost es: seq<Event>,
                          ghost c: Config, h: Hash) returns (mismatch: bool)
    requires bookSet.Valid() && InStep(bookSet.contents, states, es, c, h)
    requires FinishedFrom(summaries, bookSet.contents, states, c, h)
    ensures !mismatch
  {
    if |bookSet.books| != |summaries| {
      return false;
    }
    assert |bookSet.books| == |bookSet.books.Keys| == |bookSet.contents.Keys|;
    CombinedAgree(bookSet.contents, states, summaries, es, c, h);
    var combined := bookSet.CombinedChecksum(h.mix);
    return combined != CombinedOf(h.mix, summaries);
  }

  /** The shared pass reports exactly what grouped replay reports, down to the aggregate checksum. */
  method ReplaySharedBySymbol(es: seq<Event>, ac: AggregateConfig, h: Hash) returns (a: Aggregate)
    ensures a == GroupedAggregate(es, ac, h)
  {
    var c := SymbolConfig(ac);
    var bookSet, states := SharedPass(es, c, h);
    AllAgree(bookSet.contents, states, es, c, h);
    ghost var all := GroupedSummaries(es, c, h);
    var summaries := FinishAll(bookSet, states, SortedSymbols(states.Keys), c, h, all);
    var error := CombinedMismatch(bookSet, states, summaries, es, c, h);
    return Assembled(h, |es|, summaries, error);
  }

  /** When every symbol has a book, the set's own checksum is the one taken from the summaries. */
  lemma CombinedAgree(contents: BookMap, states: map<nat, Shared>, ss: seq<Summary>, es: seq<Event>, c: Config, h: Hash)
    requires InStep(contents, states, es, c, h) && |contents.Keys| == |ss| && FinishedFrom(ss, contents, states, c, h)
    ensures Combined(h.mix, contents) == CombinedOf(h.mix, ss)
  {
    var ps := SortedSymbols(states.Keys);
    BooksComplete(contents, states, es, c, h);
    forall k | 0 <= k < |ps|
      ensures ss[k].symbolId == ps[k] && ss[k].bookChecksum == BookChecksum(h.mix, contents[ps[k]])
    {
      SummaryShowsBook(contents, states, es, ps[k], c, h);
    }
    ValuesAgree(h.mix, contents, ps, ss);
  }

  lemma BooksComplete(contents: BookMap, states: map<nat, Shared>, es: seq<Event>, c: Config, h: Hash)
    requires InStep(contents, states, es, c, h) && |contents.Keys| == |states.Keys|
    ensures contents.Keys == states.Keys
  {
    forall s: nat | s in contents ensures s in states {
      PresentIffFiltered(es, s);
      assert SymbolInStep(contents, states, es, s, c, h) && BookAt(contents, s) == Some(contents[s]);
    }
    SameSizeSubset(contents.Keys, states.Keys);
  }

  lemma SummaryShowsBook(contents: BookMap, states: map<nat, Shared>, es: seq<Event>, symbol: nat, c: Config, h: Hash)
    requires InStep(contents, states, es, c, h) && symbol in states && symbol in contents
    ensures var s := SharedSummary(symbol, BookAt(contents, symbol), states[symbol], c, h);
      s.symbolId == symbol && s.bookChecksum == BookChecksum(h.mix, contents[symbol])
  {
    assert SymbolInStep(contents, states, es, symbol, c, h);
    PresentIffFiltered(es, symbol);
    CountsTogether(symbol, Filter(es, symbol), c, h);
  }

  lemma SameSizeSubset(a: set<nat>, b: set<nat>)
    requires a <= b && |a| == |b|
    ensures a == b
  {
    assert b == a + (b - a);
  }

  lemma {:induction false} ValuesAgree(mix: Mix, contents: BookMap, ps: seq<nat>, ss: seq<Summary>)
    requires |ps| == |ss| && forall k :: 0 <= k < |ps| ==> ps[k] in contents
    requires forall k :: 0 <= k < |ps| ==> ss[k].symbolId == ps[k] && ss[k].bookChecksum == BookChecksum(mix, contents[ps[k]])
    ensures CombinedValues(mix, contents, ps) == SummaryBookValues(ss)
    decreases |ps|
  {
    if ps != [] {
      ValuesAgree(mix, contents, ps[..|ps| - 1], ss[..|ss| - 1]);
    }
  }

  /** The parity report of the two replays always says they match. */
  method CompareParity(es: seq<Event>, ac: AggregateConfig, h: Hash) returns (matched: bool)
    ensures matched
  {
    var grouped := ReplayBySymbol(es, ac, h);
    var shared := ReplaySharedBySymbol(es, ac, h);
    matched := grouped.combined == shared.combined && grouped.checksum == shared.checksum && grouped.symbolCount == shared.symbolCount;
    var i := 0;
    while i < |grouped.symbols| && i < |shared.symbols|
      invariant matched
    {
      var g, s := grouped.symbols[i], shared.symbols[i];
      matched := matched && g.symbolId == s.symbolId && g.logChecksum == s.logChecksum && g.bookChecksum == s.bookChecksum
                 && g.executionChecksum == s.executionChecksum && g.diagnosticsChecksum == s.diagnosticsChecksum;
      i := i + 1;
    }
  }
}
