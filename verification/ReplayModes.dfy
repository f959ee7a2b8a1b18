/** Where the validation modes part: an engine used again after it stopped at a crossed book. */
module ReplayModes {
  import opened Types
  import B = Books
  import opened Events
  import opened Replays
  import opened ReplayEngines
  import opened GeneratorBounds

  const SYMBOL := 1
  const BID := Event(0, 1, SYMBOL, AddEvent, Buy, 2, 1, 1, 0, 0)
  const ASK := Event(0, 2, SYMBOL, AddEvent, Sell, 1, 1, 2, 0, 0)

  function Strict(mode: Mode): Config {
    Config(true, true, true, mode)
  }

  /** A bid above an ask stops replay, and leaves both in the book. */
  lemma TwoAddsCross(mode: Mode, h: Hash, log: int)
    ensures var f := Fed(Feed(B.Empty(SYMBOL), START, Begun(log)), [BID, ASK], Strict(mode), h);
      f.stream.halted && TopOfBook(f.book) != None
  {
    var c, f0 := Strict(mode), Feed(B.Empty(SYMBOL), START, Begun(log));
    assert [BID, ASK][..1] == [BID] && [BID][..0] == [];
    TwoOrdersCross(B.Empty(SYMBOL), OrderOf(BID), OrderOf(ASK));
    var f1 := Step(f0, BID, c, h);
    assert Fed(f0, [BID], c, h) == f1;
    assert f1.book == B.Add(B.Empty(SYMBOL), OrderOf(BID)).0;
  }

  lemma NothingFed(b: B.Book, mode: Mode, h: Hash)
    requires TopOfBook(b) != None
    ensures (Replayed(b, [], Strict(mode), h).diagnostics == []) == (mode == Full)
    ensures Replayed(b, [], Strict(mode), h).valid == (mode == Full)
  {
  }

  lemma StopsCrossed(mode: Mode, h: Hash)
    ensures var es := [BID, ASK];
      var f := Fed(Feed(B.Empty(SYMBOL), START, Begun(ChecksumEvents(h, es))), es, Strict(mode), h);
      TopOfBook(f.book) != None && !Replayed(B.Empty(SYMBOL), es, Strict(mode), h).valid
  {
    var es := [BID, ASK];
    var f := Feed(B.Empty(SYMBOL), START, Begun(ChecksumEvents(h, es)));
    TwoAddsCross(mode, h, ChecksumEvents(h, es));
    HaltedIffInvalid(f, es, Strict(mode), h);
    InvalidStays(Fed(f, es, Strict(mode), h), Strict(mode), h);
  }

  lemma InvalidStays(f: Feed, c: Config, h: Hash)
    requires !f.result.valid
    ensures !Finalized(f, c, h).valid
  {
  }

  /** The engine that stopped is given an empty stream: Light mode complains, Full mode does not. */
  method EmptyAfterCrossed(mode: Mode, h: Hash) returns (first: Result, second: Result)
    ensures !first.valid && second.valid == (mode == Full) && (second.diagnostics == []) == (mode == Full)
  {
    var engine := new ReplayEngine(SYMBOL, Strict(mode), h);
    StopsCrossed(mode, h);
    first := engine.ReplayEvents([BID, ASK]);
    NothingFed(engine.book.View(), mode, h);
    second := engine.ReplayEvents([]);
  }
}
