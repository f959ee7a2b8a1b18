/** Which symbols a replay of many symbols accepts, told from each symbol's own events, and what their
    summaries say; by parity this holds of the grouped replay and of the shared pass alike. */
module AggregateRefusals {
  import opened Types
  import B = Books
  import opened Events
  import opened Replays
  import opened SharedReplays
  import opened AggregateReplays
  import opened ReplayRefusals
  import TP = TimePriorities

  /** Whether event `i` of a symbol's own events passes every check; numbers are checked per symbol, and only
      if that is asked for. */
  ghost predicate SymbolPasses(ac: AggregateConfig, symbol: nat, fs: seq<Event>, i: nat)
    requires i < |fs|
  {
    && (ac.replay.sequences && ac.perSymbolSequences ==> InSequence(fs, i))
    && (ac.replay.timestamps ==> InTime(fs, i))
    && symbol != INVALID_ID && GoodTerms(fs[i])
    && FitsSlot(TP.SlotOf(symbol, OpsAfter([], fs[..i]), fs[i].orderId), fs[i])
    && (ac.replay.bookState ==> SidesApart(symbol, OpsAfter([], fs[..i + 1])))
  }

  lemma PassesIs(ac: AggregateConfig, symbol: nat, es: seq<Event>, i: nat)
    requires i < |Filter(es, symbol)|
    ensures Passes(symbol, [], Filter(es, symbol), i, SymbolConfig(ac)) <==> SymbolPasses(ac, symbol, Filter(es, symbol), i)
  {
  }

  /** A symbol's summary is valid exactly when each of its events passes, whatever other symbols do; it counts
      its events, and its first and last numbers and times are theirs. */
  lemma SymbolAcceptedIff(es: seq<Event>, ac: AggregateConfig, h: Hash, symbol: nat)
    requires symbol in SymbolsOf(es)
    ensures var fs := Filter(es, symbol); var s := GroupedSummary(symbol, fs, SymbolConfig(ac), h);
      && (s.valid <==> forall i :: 0 <= i < |fs| ==> SymbolPasses(ac, symbol, fs, i))
      && (s.valid <==> s.diagnostics == []) && fs != []
      && s.symbolId == symbol && s.eventCount == |fs| && s.firstSequence == fs[0].sequence && s.lastSequence == fs[|fs| - 1].sequence
      && s.firstTimestamp == fs[0].timestamp && s.lastTimestamp == fs[|fs| - 1].timestamp
  {
    var fs, c := Filter(es, symbol), SymbolConfig(ac);
    PresentIffFiltered(es, symbol);
    assert B.Run(B.Empty(symbol), []).0 == B.Empty(symbol);
    AcceptedIff(symbol, [], fs, c, h);
    forall i | 0 <= i < |fs| ensures Passes(symbol, [], fs, i, c) <==> SymbolPasses(ac, symbol, fs, i) {
      PassesIs(ac, symbol, es, i);
    }
  }
}
