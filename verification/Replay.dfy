/** Single-thread replay of one symbol's events: what each event does to the book, the stream
    position and the result. */
module Replays {
  import opened Types
  import opened Checksum
  import opened Books
  import opened Events

  datatype Mode = Full | Light
  datatype Config = Config(sequences: bool, timestamps: bool, bookState: bool, mode: Mode)

  datatype Stream = Stream(expected: nat, last: int, hasLast: bool, index: nat, halted: bool)

  datatype Result = Result(processed: nat, valid: bool, logChecksum: int, bookChecksum: int, executionChecksum: int,
                           diagnosticsChecksum: int, errorCount: nat, warningCount: nat, diagnostics: seq<Diagnostic>,
                           error: Option<Reason>)

  const START := Stream(0, 0, false, 0, false)

  function Begun(logChecksum: int): Result {
    Result(0, true, logChecksum, 0, FNV_OFFSET_BASIS, FNV_OFFSET_BASIS, 0, 0, [], None)
  }

  function Diagnosed(h: Hash, r: Result, d: Diagnostic): Result {
    r.(diagnosticsChecksum := AppendDiagnostic(h, r.diagnosticsChecksum, d), errorCount := r.errorCount + 1,
       diagnostics := r.diagnostics + [d], valid := false, error := Some(d.reason))
  }

  // ----- the checks before and after an event is applied

  function Sequenced(s: Stream, e: Event, c: Config): (Stream, Option<Reason>) {
    if !c.sequences then (s, None)
    else
      var expected := if s.expected == 0 then e.sequence else s.expected;
      if e.sequence != expected then (s.(expected := expected), Some(SequenceGap(expected, e.sequence)))
      else (s.(expected := expected + 1), None)
  }

  function Timed(s: Stream, e: Event, c: Config): (Stream, Option<Reason>) {
    if !c.timestamps then (s, None)
    else if s.hasLast && e.timestamp < s.last then (s, Some(TimestampReversal(s.last, e.timestamp)))
    else (s.(last := e.timestamp, hasLast := true), None)
  }

  /** Why an event is refused on its own. */
  function Malformed(e: Event): Option<Reason> {
    if OrderIdRequired(e.kind) && e.orderId == INVALID_ID then Some(InvalidOrderId)
    else if (e.kind == AddEvent || e.kind == ReplaceEvent) && !ValidSide(e.side) then Some(InvalidSide)
    else if PriceRequired(e.kind) && e.price <= 0 then Some(InvalidPrice)
    else if !PriceRequired(e.kind) && e.price < 0 then Some(NegativePrice)
    else if QuantityRequired(e.kind) && e.quantity <= 0 then Some(InvalidQuantity)
    else if !QuantityRequired(e.kind) && e.quantity < 0 then Some(NegativeQuantity)
    else None
  }

  /** Why an event is refused by the book it is for. */
  ghost function Unfit(b: Book, e: Event): Option<Reason> {
    if e.kind == AddEvent && Has(b, e.orderId) then Some(DuplicateOrderId)
    else if e.kind == SnapshotEvent && e.orderId != INVALID_ID then
      if !ValidSide(e.side) then Some(InvalidSnapshotSide)
      else if e.price <= 0 then Some(InvalidSnapshotPrice)
      else if e.quantity <= 0 then Some(InvalidSnapshotQuantity)
      else None
    else if e.kind == CancelEvent || e.kind == ReplaceEvent || e.kind == ExecuteEvent then
      if !Has(b, e.orderId) then Some(UnknownOrderId(e.kind))
      else if e.kind != ReplaceEvent && e.quantity > Find(b, e.orderId).quantity then Some(ExceedsResting)
      else None
    else None
  }

  ghost function Refused(b: Book, e: Event): Option<Reason> {
    if e.symbolId == INVALID_ID then Some(InvalidSymbol)
    else if e.symbolId != b.symbol then Some(SymbolMismatch)
    else if Malformed(e) != None then Malformed(e)
    else Unfit(b, e)
  }

  /** The book after an event, and why applying it failed if it did. */
  ghost function Applied(b: Book, e: Event): (Book, Option<Reason>) {
    match e.kind
    case AddEvent => var (b', ok) := Add(b, OrderOf(e)); (b', if ok then None else Some(ApplyFailed(AddEvent)))
    case CancelEvent =>
      if e.quantity > 0 then var (b', ok) := Reduce(b, e.orderId, e.quantity); (b', if ok then None else Some(PartialCancelFailed))
      else var (b', ok) := Cancel(b, e.orderId); (b', if ok then None else Some(ApplyFailed(CancelEvent)))
    case ReplaceEvent =>
      var (b', ok) := Replace(b, e.orderId, e.price, e.quantity, e.timestamp, e.sequence);
      (b', if ok then None else Some(ApplyFailed(ReplaceEvent)))
    case ExecuteEvent => var (b', ok) := Reduce(b, e.orderId, e.quantity); (b', if ok then None else Some(ApplyFailed(ExecuteEvent)))
    case SnapshotEvent =>
      var b1 := if BeginsSnapshot(e) then Empty(b.symbol) else b;
      if e.orderId == INVALID_ID then (b1, None)
      else var (b', ok) := Add(b1, OrderOf(e)); (b', if ok then None else Some(ApplyFailed(SnapshotEvent)))
    case TradeEvent => (b, None)
    case HeartbeatEvent => (b, None)
  }

  function TopOfBook(b: Book): Option<Reason> {
    match (BestPrice(b, Buy), BestPrice(b, Sell))
    case (Some(bid), Some(ask)) => if bid >= ask then Some(CrossedBook(bid, ask)) else None
    case _ => None
  }

  /** Whether the book passes after an event. The invariant walk of Full mode adds nothing: it never
      finds a violation. */
  function BookCheck(b: Book, c: Config): Option<Reason> {
    if c.bookState then TopOfBook(b) else None
  }

  // ----- one event, a stream of events, the end of the stream

  datatype Feed = Feed(book: Book, stream: Stream, result: Result)

  function Halt(b: Book, s: Stream, r: Result, e: Event, reason: Reason, h: Hash): Feed {
    Feed(b, s.(halted := true), Diagnosed(h, r, Diagnostic(s.index, e.sequence, e.symbolId, reason)))
  }

  function WithActivity(r: Result, e: Event, h: Hash): Result {
    if e.kind == ExecuteEvent || e.kind == TradeEvent then r.(executionChecksum := AppendEvent(h, r.executionChecksum, e)) else r
  }

  /** What happens once an event is in sequence and in time. */
  ghost function Checked(b: Book, s: Stream, r: Result, e: Event, c: Config, h: Hash): Feed {
    if Refused(b, e) != None then Halt(b, s, r, e, Refused(b, e).value, h)
    else
      var (b', failure) := Applied(b, e);
      if failure != None then Halt(b', s, r, e, failure.value, h)
      else
        var r' := WithActivity(r, e, h);
        if BookCheck(b', c) != None then Halt(b', s, r', e, BookCheck(b', c).value, h)
        else Feed(b', s.(index := s.index + 1), r'.(processed := r'.processed + 1))
  }

  ghost function Step(f: Feed, e: Event, c: Config, h: Hash): Feed {
    if f.stream.halted then f
    else
      var (s1, gap) := Sequenced(f.stream, e, c);
      if gap != None then Halt(f.book, s1, f.result, e, gap.value, h)
      else
        var (s2, reversal) := Timed(s1, e, c);
        if reversal != None then Halt(f.book, s2, f.result, e, reversal.value, h)
        else Checked(f.book, s2, f.result, e, c, h)
  }

  ghost function Fed(f: Feed, es: seq<Event>, c: Config, h: Hash): Feed {
    if es == [] then f else Step(Fed(f, es[..|es| - 1], c, h), es[|es| - 1], c, h)
  }

  function Finalized(f: Feed, c: Config, h: Hash): Result {
    var late := c.bookState && c.mode == Light && f.result.valid && TopOfBook(f.book) != None;
    var r := if late then Diagnosed(h, f.result, Diagnostic(f.result.processed, 0, f.book.symbol, TopOfBook(f.book).value)) else f.result;
    r.(bookChecksum := BookChecksum(h.mix, f.book))
  }

  ghost function Replayed(b: Book, es: seq<Event>, c: Config, h: Hash): Result {
    Finalized(Fed(Feed(b, START, Begun(ChecksumEvents(h, es))), es, c, h), c, h)
  }

  // ----- the book invariant over a replay

  lemma AppliedSound(b: Book, e: Event)
    requires Sound(b)
    ensures Sound(Applied(b, e).0) && Applied(b, e).0.symbol == b.symbol
  {
    match e.kind
    case AddEvent => ApplySound(b, AddOp(OrderOf(e)));
    case CancelEvent =>
      ApplySound(b, ReduceOp(e.orderId, e.quantity));
      ApplySound(b, CancelOp(e.orderId));
    case ReplaceEvent => ApplySound(b, ReplaceOp(e.orderId, e.price, e.quantity, e.timestamp, e.sequence));
    case ExecuteEvent => ApplySound(b, ReduceOp(e.orderId, e.quantity));
    case SnapshotEvent => ApplySound(if BeginsSnapshot(e) then Empty(b.symbol) else b, AddOp(OrderOf(e)));
    case TradeEvent =>
    case HeartbeatEvent =>
  }

  lemma StepSound(f: Feed, e: Event, c: Config, h: Hash)
    requires Sound(f.book)
    ensures Sound(Step(f, e, c, h).book) && Step(f, e, c, h).book.symbol == f.book.symbol
  {
    AppliedSound(f.book, e);
  }

  /** Whatever the stream, the book behind it stays well formed and keeps its symbol. */
  lemma {:induction false} FedSound(f: Feed, es: seq<Event>, c: Config, h: Hash)
    requires Sound(f.book)
    ensures Sound(Fed(f, es, c, h).book) && Fed(f, es, c, h).book.symbol == f.book.symbol
    decreases |es|
  {
    if es != [] {
      FedSound(f, es[..|es| - 1], c, h);
      StepSound(Fed(f, es[..|es| - 1], c, h), es[|es| - 1], c, h);
    }
  }

  /** An event the checks let through is always applied, except a snapshot order that already rests. */
  lemma AcceptedApplies(b: Book, e: Event)
    requires Sound(b) && Refused(b, e) == None
    ensures Applied(b, e).1 != None <==> RepeatsSnapshot(b, e)
    ensures Applied(b, e).1 != None ==> Applied(b, e) == (b, Some(ApplyFailed(SnapshotEvent)))
  {
    if e.kind == CancelEvent || e.kind == ReplaceEvent || e.kind == ExecuteEvent {
      assert Has(b, e.orderId);
    }
  }

  ghost predicate RepeatsSnapshot(b: Book, e: Event) {
    e.kind == SnapshotEvent && e.orderId != INVALID_ID && !BeginsSnapshot(e) && Has(b, e.orderId)
  }

  lemma StepHaltsIffInvalid(f: Feed, e: Event, c: Config, h: Hash)
    requires f.stream.halted == !f.result.valid
    ensures Step(f, e, c, h).stream.halted == !Step(f, e, c, h).result.valid
  {
  }

  /** A stream is halted exactly when its result has become invalid. */
  lemma {:induction false} HaltedIffInvalid(f: Feed, es: seq<Event>, c: Config, h: Hash)
    requires f.stream.halted == !f.result.valid
    ensures Fed(f, es, c, h).stream.halted == !Fed(f, es, c, h).result.valid
    decreases |es|
  {
    if es != [] {
      HaltedIffInvalid(f, es[..|es| - 1], c, h);
      StepHaltsIffInvalid(Fed(f, es[..|es| - 1], c, h), es[|es| - 1], c, h);
    }
  }

  // ----- Light mode against Full mode

  function InMode(c: Config, mode: Mode): Config {
    c.(mode := mode)
  }

  lemma {:induction false} ModesRunAlike(f: Feed, es: seq<Event>, c: Config, h: Hash)
    ensures Fed(f, es, InMode(c, Light), h) == Fed(f, es, InMode(c, Full), h)
    decreases |es|
  {
    if es != [] {
      ModesRunAlike(f, es[..|es| - 1], c, h);
    }
  }

  /** A stream that reaches its end leaves the book uncrossed. */
  lemma EndsUncrossed(f: Feed, es: seq<Event>, c: Config, h: Hash)
    requires !f.stream.halted && f.result.valid && c.bookState
    requires es != [] || TopOfBook(f.book) == None
    requires Fed(f, es, c, h).result.valid
    ensures TopOfBook(Fed(f, es, c, h).book) == None
  {
    HaltedIffInvalid(f, es, c, h);
    if es != [] {
      var before := Fed(f, es[..|es| - 1], c, h);
      assert !before.stream.halted;
    }
  }

  /** Light mode gives Full mode's result exactly when the deferred check cannot be the first to look:
      unless nothing was replayed into a book that was already crossed. */
  lemma LightIsFull(b: Book, es: seq<Event>, c: Config, h: Hash)
    ensures Replayed(b, es, InMode(c, Light), h) == Replayed(b, es, InMode(c, Full), h)
      <==> !(c.bookState && es == [] && TopOfBook(b) != None)
  {
    var f := Feed(b, START, Begun(ChecksumEvents(h, es)));
    ModesRunAlike(f, es, c, h);
    var light := Fed(f, es, InMode(c, Light), h);
    if c.bookState && light.result.valid && (es != [] || TopOfBook(b) == None) {
      EndsUncrossed(f, es, InMode(c, Light), h);
    }
  }

  /** A fresh engine therefore never notices the mode. */
  lemma FreshLightIsFull(symbol: nat, es: seq<Event>, c: Config, h: Hash)
    ensures Replayed(Empty(symbol), es, InMode(c, Light), h) == Replayed(Empty(symbol), es, InMode(c, Full), h)
  {
    LightIsFull(Empty(symbol), es, c, h);
  }
}
