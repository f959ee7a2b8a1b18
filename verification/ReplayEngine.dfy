/** The replay engine over the default book, one event at a time or a whole stream. */
module ReplayEngines {
  import opened Types
  import opened Checksum
  import opened Books
  import opened OrderBooks
  import opened BookChecks
  import opened Events
  import opened Replays

  /** The checks an event must pass on its own, in the order the C++ code makes them. */
  method ValidateShape(e: Event) returns (reason: Option<Reason>)
    ensures reason == Malformed(e)
  {
    if OrderIdRequired(e.kind) && e.orderId == INVALID_ID { return Some(InvalidOrderId); }
    if (e.kind == AddEvent || e.kind == ReplaceEvent) && !ValidSide(e.side) { return Some(InvalidSide); }
    if PriceRequired(e.kind) && e.price <= 0 { return Some(InvalidPrice); }
    if !PriceRequired(e.kind) && e.price < 0 { return Some(NegativePrice); }
    if QuantityRequired(e.kind) && e.quantity <= 0 { return Some(InvalidQuantity); }
    if !QuantityRequired(e.kind) && e.quantity < 0 { return Some(NegativeQuantity); }
    return None;
  }

  method ValidateTopOfBook(book: OrderBook) returns (reason: Option<Reason>)
    ensures reason == TopOfBook(book.View())
  {
    var bid := book.BestBid();
    var ask := book.BestAsk();
    if bid != None && ask != None && bid.value >= ask.value {
      return Some(CrossedBook(bid.value, ask.value));
    }
    return None;
  }

  /** The full invariant walk, then the top of the book. The walk never finds anything. */
  method ValidateFullBook(book: OrderBook, final: bool) returns (reason: Option<Reason>)
    requires book.Valid()
    ensures reason == TopOfBook(book.View())
  {
    ReachableIsConsistent(book.Fields());
    var violations := CheckInvariants(book.Fields());
    if violations != [] {
      return Some(BookViolation(final));
    }
    reason := ValidateTopOfBook(book);
  }

  method ValidateBookAfterApply(book: OrderBook, c: Config) returns (reason: Option<Reason>)
    requires book.Valid()
    ensures reason == BookCheck(book.View(), c)
  {
    if !c.bookState {
      return None;
    }
    if c.mode == Light {
      reason := ValidateTopOfBook(book);
    } else {
      reason := ValidateFullBook(book, false);
    }
  }

  class ReplayEngine {
    const config: Config
    const h: Hash
    const book: OrderBook

    constructor (symbolId: nat, config: Config, h: Hash)
      ensures book.Valid() && fresh(book) && this.config == config && this.h == h && book.View() == Empty(symbolId)
    {
      this.config, this.h := config, h;
      book := new OrderBook(symbolId);
    }

    method ValidateBeforeApply(e: Event) returns (reason: Option<Reason>)
      requires book.Valid()
      ensures reason == Refused(book.View(), e)
    {
      if e.symbolId == INVALID_ID { return Some(InvalidSymbol); }
      if e.symbolId != book.symbolId { return Some(SymbolMismatch); }
      reason := ValidateShape(e);
      if reason != None { return; }
      if e.kind == AddEvent {
        var order := book.FindOrder(e.orderId);
        if order != None { return Some(DuplicateOrderId); }
      }
      if e.kind == SnapshotEvent && e.orderId != INVALID_ID {
        if !ValidSide(e.side) { return Some(InvalidSnapshotSide); }
        if e.price <= 0 { return Some(InvalidSnapshotPrice); }
        if e.quantity <= 0 { return Some(InvalidSnapshotQuantity); }
      }
      if e.kind == CancelEvent || e.kind == ReplaceEvent || e.kind == ExecuteEvent {
        var order := book.FindOrder(e.orderId);
        if order == None { return Some(UnknownOrderId(e.kind)); }
        if (e.kind == CancelEvent || e.kind == ExecuteEvent) && e.quantity > order.value.quantity { return Some(ExceedsResting); }
      }
      return None;
    }

    method ApplyToBook(e: Event) returns (failure: Option<Reason>)
      requires book.Valid()
      modifies book
      ensures book.Valid() && (book.View(), failure) == Applied(old(book.View()), e)
    {
      match e.kind
      case AddEvent =>
        var ok := book.AddOrder(OrderOf(e));
        failure := if ok then None else Some(ApplyFailed(AddEvent));
      case CancelEvent =>
        if e.quantity > 0 {
          var ok := book.ReduceOrder(e.orderId, e.quantity);
          failure := if ok then None else Some(PartialCancelFailed);
        } else {
          var ok := book.CancelOrder(e.orderId);
          failure := if ok then None else Some(ApplyFailed(CancelEvent));
        }
      case ReplaceEvent =>
        var ok := book.ReplaceOrder(e.orderId, e.price, e.quantity, e.timestamp, e.sequence);
        failure := if ok then None else Some(ApplyFailed(ReplaceEvent));
      case ExecuteEvent =>
        var ok := book.ReduceOrder(e.orderId, e.quantity);
        failure := if ok then None else Some(ApplyFailed(ExecuteEvent));
      case SnapshotEvent =>
        failure := ApplySnapshot(e);
      case TradeEvent => failure := None;
      case HeartbeatEvent => failure := None;
    }

    method ApplySnapshot(e: Event) returns (failure: Option<Reason>)
      requires book.Valid() && e.kind == SnapshotEvent
      modifies book
      ensures book.Valid() && (book.View(), failure) == Applied(old(book.View()), e)
    {
      if BeginsSnapshot(e) {
        book.Clear();
      }
      if e.orderId == INVALID_ID {
        return None;
      }
      var ok := book.AddOrder(OrderOf(e));
      failure := if ok then None else Some(ApplyFailed(SnapshotEvent));
    }

    /** Refuse, apply, count the activity, check the book. */
    method CheckAndApply(e: Event, s: Stream, r: Result) returns (s': Stream, r': Result)
      requires book.Valid()
      modifies book
      ensures book.Valid() && Feed(book.View(), s', r') == Checked(old(book.View()), s, r, e, config, h)
    {
      s', r' := s, r;
      var refusal := ValidateBeforeApply(e);
      if refusal != None {
        s', r' := s.(halted := true), Diagnosed(h, r, Diagnostic(s.index, e.sequence, e.symbolId, refusal.value));
        return;
      }
      var failure := ApplyToBook(e);
      if failure != None {
        s', r' := s.(halted := true), Diagnosed(h, r, Diagnostic(s.index, e.sequence, e.symbolId, failure.value));
        return;
      }
      if e.kind == ExecuteEvent || e.kind == TradeEvent {
        r' := r'.(executionChecksum := AppendEvent(h, r'.executionChecksum, e));
      }
      var violation := ValidateBookAfterApply(book, config);
      if violation != None {
        s', r' := s.(halted := true), Diagnosed(h, r', Diagnostic(s.index, e.sequence, e.symbolId, violation.value));
        return;
      }
      s', r' := s.(index := s.index + 1), r'.(processed := r'.processed + 1);
    }

    /** The sequence and timestamp checks: whether the step goes on, and from which state. */
    static method CheckStream(e: Event, c: Config, h: Hash, s: Stream, r: Result, ghost b: Book)
      returns (s': Stream, r': Result, on: bool)
      requires !s.halted
      ensures Step(Feed(b, s, r), e, c, h) == if on then Checked(b, s', r', e, c, h) else Feed(b, s', r')
      ensures s'.halted == !on
    {
      s', r' := s, r;
      if c.sequences {
        if s'.expected == 0 {
          s' := s'.(expected := e.sequence);
        }
        if e.sequence != s'.expected {
          r' := Diagnosed(h, r', Diagnostic(s.index, e.sequence, e.symbolId, SequenceGap(s'.expected, e.sequence)));
          s' := s'.(halted := true);
          return s', r', false;
        }
        s' := s'.(expected := s'.expected + 1);
      }
      if c.timestamps {
        if s'.hasLast && e.timestamp < s'.last {
          r' := Diagnosed(h, r', Diagnostic(s.index, e.sequence, e.symbolId, TimestampReversal(s'.last, e.timestamp)));
          s' := s'.(halted := true);
          return s', r', false;
        }
        s' := s'.(last := e.timestamp, hasLast := true);
      }
      return s', r', true;
    }

    method ReplayStep(e: Event, s: Stream, r: Result) returns (s': Stream, r': Result, more: bool)
      requires book.Valid() && !s.halted
      modifies book
      ensures book.Valid() && Feed(book.View(), s', r') == Step(Feed(old(book.View()), s, r), e, config, h)
      ensures more == !s'.halted
    {
      s', r', more := CheckStream(e, config, h, s, r, book.View());
      if more {
        s', r' := CheckAndApply(e, s', r');
        more := !s'.halted;
      }
    }

    method FinalizeStream(s: Stream, r: Result) returns (r': Result)
      requires book.Valid()
      ensures r' == Finalized(Feed(book.View(), s, r), config, h)
    {
      r' := r;
      if config.bookState && config.mode == Light && r.valid {
        var violation := ValidateFullBook(book, true);
        if violation != None {
          r' := Diagnosed(h, r', Diagnostic(r.processed, 0, book.symbolId, violation.value));
        }
      }
      var c := book.Checksum(h.mix);
      r' := r'.(bookChecksum := c);
    }

    method ReplayEvents(es: seq<Event>) returns (r: Result)
      requires book.Valid()
      modifies book
      ensures book.Valid() && r == Replayed(old(book.View()), es, config, h)
      ensures book.View() == Fed(Feed(old(book.View()), START, Begun(ChecksumEvents(h, es))), es, config, h).book
    {
      ghost var f := Feed(book.View(), START, Begun(ChecksumEvents(h, es)));
      r := Begun(ChecksumEvents(h, es));
      var s := START;
      var index := 0;
      while index < |es|
        invariant index <= |es| && book.Valid()
        invariant Feed(book.View(), s, r) == Fed(f, es[..index], config, h) && !s.halted
      {
        assert es[..index + 1][..index] == es[..index];
        var more;
        s, r, more := ReplayStep(es[index], s, r);
        index := index + 1;
        if !more {
          HaltedStays(f, es, index, config, h);
          break;
        }
      }
      assert es[..|es|] == es;
      assert Feed(book.View(), s, r) == Fed(f, es, config, h);
      r := FinalizeStream(s, r);
    }
  }

  /** Nothing after a halt changes anything. */
  lemma {:induction false} HaltedStays(f: Feed, es: seq<Event>, i: nat, c: Config, h: Hash)
    requires i <= |es| && Fed(f, es[..i], c, h).stream.halted
    ensures Fed(f, es, c, h) == Fed(f, es[..i], c, h)
    decreases |es|
  {
    if i == |es| {
      assert es[..i] == es;
    } else {
      assert es[..|es| - 1][..i] == es[..i];
      HaltedStays(f, es[..|es| - 1], i, c, h);
    }
  }
}
