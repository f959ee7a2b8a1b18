/** Which streams replay accepts, told from the list of events alone: each event's number, time and
    terms, and what the events before it have left of the order it names. */
module ReplayRefusals {
  import opened Types
  import opened Ranking
  import opened Books
  import opened Events
  import opened Replays
  import TP = TimePriorities

  // ----- the operations a stream stands for

  function OpsOfEvent(e: Event): seq<Op> {
    match e.kind
    case AddEvent => [AddOp(OrderOf(e))]
    case CancelEvent => [if e.quantity > 0 then ReduceOp(e.orderId, e.quantity) else CancelOp(e.orderId)]
    case ReplaceEvent => [ReplaceOp(e.orderId, e.price, e.quantity, e.timestamp, e.sequence)]
    case ExecuteEvent => [ReduceOp(e.orderId, e.quantity)]
    case SnapshotEvent =>
      (if BeginsSnapshot(e) then [ClearOp] else []) + (if e.orderId != INVALID_ID then [AddOp(OrderOf(e))] else [])
    case TradeEvent => []
    case HeartbeatEvent => []
  }

  /** The operations of a book's past, and then those of the events. */
  function OpsAfter(past: seq<Op>, es: seq<Event>): seq<Op> {
    if es == [] then past else OpsAfter(past, es[..|es| - 1]) + OpsOfEvent(es[|es| - 1])
  }

  // ----- what one event must satisfy

  predicate InSequence(es: seq<Event>, i: nat)
    requires i < |es|
  {
    es[i].sequence == es[0].sequence + i
  }

  predicate InTime(es: seq<Event>, i: nat)
    requires i < |es|
  {
    i > 0 ==> es[i - 1].timestamp <= es[i].timestamp
  }

  /** The terms an event of each kind must have. */
  predicate GoodTerms(e: Event) {
    match e.kind
    case AddEvent => e.orderId != INVALID_ID && ValidSide(e.side) && e.price > 0 && e.quantity > 0
    case ReplaceEvent => e.orderId != INVALID_ID && ValidSide(e.side) && e.price > 0 && e.quantity > 0
    case CancelEvent => e.orderId != INVALID_ID && e.price >= 0 && e.quantity >= 0
    case ExecuteEvent => e.orderId != INVALID_ID && e.price >= 0 && e.quantity > 0
    case TradeEvent => e.price > 0 && e.quantity > 0
    case SnapshotEvent => e.price >= 0 && e.quantity >= 0 && (e.orderId != INVALID_ID ==> ValidSide(e.side) && e.price > 0 && e.quantity > 0)
    case HeartbeatEvent => e.price >= 0 && e.quantity >= 0
  }

  /** What must have become of the order an event names. */
  predicate FitsSlot(slot: TP.Slot, e: Event) {
    match e.kind
    case AddEvent => slot.Vacant?
    case CancelEvent => slot.Resting? && e.quantity <= slot.order.quantity
    case ExecuteEvent => slot.Resting? && e.quantity <= slot.order.quantity
    case ReplaceEvent => slot.Resting?
    case SnapshotEvent => e.orderId == INVALID_ID || BeginsSnapshot(e) || slot.Vacant?
    case TradeEvent => true
    case HeartbeatEvent => true
  }

  /** Every resting buy order is below every resting sell order. */
  ghost predicate SidesApart(symbol: nat, ops: seq<Op>) {
    forall k, k' :: var s, s' := TP.SlotOf(symbol, ops, k), TP.SlotOf(symbol, ops, k');
      s.Resting? && s'.Resting? && s.order.side == Buy && s'.order.side == Sell ==> s.order.price < s'.order.price
  }

  /** Whether event `i` of a stream replayed into a book with this past passes every check. */
  ghost predicate Passes(symbol: nat, past: seq<Op>, es: seq<Event>, i: nat, c: Config)
    requires i < |es|
  {
    && (c.sequences ==> InSequence(es, i))
    && (c.timestamps ==> InTime(es, i))
    && es[i].symbolId == symbol != INVALID_ID && GoodTerms(es[i])
    && FitsSlot(TP.SlotOf(symbol, OpsAfter(past, es[..i]), es[i].orderId), es[i])
    && (c.bookState ==> SidesApart(symbol, OpsAfter(past, es[..i + 1])))
  }

  // ----- one event against the book

  lemma BookOfPast(symbol: nat, ops: seq<Op>)
    ensures Sound(Run(Empty(symbol), ops).0) && Run(Empty(symbol), ops).0.symbol == symbol
  {
    RunSound(symbol, ops);
  }

  lemma RunOne(symbol: nat, ops: seq<Op>, op: Op)
    ensures Run(Empty(symbol), ops + [op]).0 == Apply(Run(Empty(symbol), ops).0, op).0
  {
    assert (ops + [op])[..|ops|] == ops;
  }

  /** An event is refused exactly when its symbol, its terms or the order it names are wrong. */
  lemma RefusedIff(symbol: nat, ops: seq<Op>, e: Event)
    ensures var b, slot := Run(Empty(symbol), ops).0, TP.SlotOf(symbol, ops, e.orderId);
      Refused(b, e) == None && Applied(b, e).1 == None <==> e.symbolId == symbol != INVALID_ID && GoodTerms(e) && FitsSlot(slot, e)
  {
    var b := Run(Empty(symbol), ops).0;
    BookOfPast(symbol, ops);
    TP.RunHolds(symbol, ops, e.orderId);
    if Refused(b, e) == None {
      AcceptedApplies(b, e);
    }
  }

  lemma SnapshotIs(symbol: nat, ops: seq<Op>, e: Event)
    requires e.kind == SnapshotEvent
    ensures Run(Empty(symbol), ops + OpsOfEvent(e)).0 == Applied(Run(Empty(symbol), ops).0, e).0
  {
    var b := Run(Empty(symbol), ops).0;
    var cleared, b1 := if BeginsSnapshot(e) then ops + [ClearOp] else ops, if BeginsSnapshot(e) then Empty(b.symbol) else b;
    RunOne(symbol, ops, ClearOp);
    assert Run(Empty(symbol), cleared).0 == b1;
    if e.orderId == INVALID_ID {
      assert ops + OpsOfEvent(e) == cleared;
    } else {
      RunOne(symbol, cleared, AddOp(OrderOf(e)));
      assert ops + OpsOfEvent(e) == cleared + [AddOp(OrderOf(e))];
    }
  }

  /** An event that goes through does to the book what its operations do. */
  lemma AppliedIs(symbol: nat, ops: seq<Op>, e: Event)
    ensures Run(Empty(symbol), ops + OpsOfEvent(e)).0 == Applied(Run(Empty(symbol), ops).0, e).0
  {
    if e.kind == SnapshotEvent {
      SnapshotIs(symbol, ops, e);
    } else if OpsOfEvent(e) == [] {
      assert ops + [] == ops;
    } else {
      assert OpsOfEvent(e) == [OpsOfEvent(e)[0]];
      RunOne(symbol, ops, OpsOfEvent(e)[0]);
    }
  }

  /** The best prices cross exactly when some resting buy order reaches some resting sell order. */
  lemma ApartIff(symbol: nat, ops: seq<Op>)
    ensures TopOfBook(Run(Empty(symbol), ops).0) == None <==> SidesApart(symbol, ops)
  {
    var b := Run(Empty(symbol), ops).0;
    BookOfPast(symbol, ops);
    if TopOfBook(b) != None {
      var bid, ask := Best(Buy, b.bids.Keys), Best(Sell, b.asks.Keys);
      assert In(b, Buy, bid, 0) && In(b, Sell, ask, 0);
      FindIs(b, Buy, bid, 0);
      FindIs(b, Sell, ask, 0);
      var k, k' := Get(b, Buy, bid, 0).orderId, Get(b, Sell, ask, 0).orderId;
      TP.RunHolds(symbol, ops, k);
      TP.RunHolds(symbol, ops, k');
    } else {
      forall k, k' | TP.SlotOf(symbol, ops, k).Resting? && TP.SlotOf(symbol, ops, k').Resting?
                     && TP.SlotOf(symbol, ops, k).order.side == Buy && TP.SlotOf(symbol, ops, k').order.side == Sell
        ensures TP.SlotOf(symbol, ops, k).order.price < TP.SlotOf(symbol, ops, k').order.price
      {
        TP.RunHolds(symbol, ops, k);
        TP.RunHolds(symbol, ops, k');
        FoundOn(b, k);
        FoundOn(b, k');
      }
    }
  }

  lemma FoundOn(b: Book, id: nat)
    requires Sound(b) && Has(b, id)
    ensures Find(b, id).price in On(b, Find(b, id).side).Keys && ValidSide(Find(b, id).side)
  {
    var s, p, i :| In(b, s, p, i) && Get(b, s, p, i).orderId == id;
    FindIs(b, s, p, i);
  }

  // ----- a stream as far as it goes

  /** The state of a stream of which the first `n` events went through. */
  ghost predicate Going(symbol: nat, past: seq<Op>, es: seq<Event>, n: nat, c: Config, f: Feed)
    requires n <= |es|
  {
    && f.book == Run(Empty(symbol), OpsAfter(past, es[..n])).0
    && !f.stream.halted && f.stream.index == n && f.result.valid && f.result.processed == n && f.result.diagnostics == []
    && (c.sequences ==> f.stream.expected == if n == 0 then 0 else es[0].sequence + n)
    && (c.timestamps ==> f.stream.hasLast == (n > 0) && (n > 0 ==> f.stream.last == es[n - 1].timestamp))
  }

  ghost predicate AllPass(symbol: nat, past: seq<Op>, es: seq<Event>, n: nat, c: Config)
    requires n <= |es|
  {
    forall i :: 0 <= i < n ==> Passes(symbol, past, es, i, c)
  }

  lemma OpsNext(past: seq<Op>, es: seq<Event>, n: nat)
    requires n < |es|
    ensures OpsAfter(past, es[..n + 1]) == OpsAfter(past, es[..n]) + OpsOfEvent(es[n])
  {
    assert es[..n + 1][..n] == es[..n];
  }

  /** Whether event `n` is in sequence and in time is what the stream position tells. */
  lemma OrderChecks(symbol: nat, past: seq<Op>, es: seq<Event>, n: nat, c: Config, f: Feed)
    requires n < |es| && Going(symbol, past, es, n, c, f)
    ensures Sequenced(f.stream, es[n], c).1 == (if c.sequences && !InSequence(es, n) then Some(SequenceGap(es[0].sequence + n, es[n].sequence)) else None)
    ensures var s := Sequenced(f.stream, es[n], c).0;
      Timed(s, es[n], c).1 == if c.timestamps && !InTime(es, n) then Some(TimestampReversal(es[n - 1].timestamp, es[n].timestamp)) else None
  {
  }

  /** The checks on one event behind those on its number and its time. */
  lemma BookChecks(symbol: nat, past: seq<Op>, es: seq<Event>, n: nat, c: Config)
    requires n < |es|
    ensures var ops, e := OpsAfter(past, es[..n]), es[n]; var b := Run(Empty(symbol), ops).0; var b' := Applied(b, e).0;
      && Run(Empty(symbol), OpsAfter(past, es[..n + 1])).0 == b'
      && (Refused(b, e) == None && Applied(b, e).1 == None && BookCheck(b', c) == None
          <==> e.symbolId == symbol != INVALID_ID && GoodTerms(e) && FitsSlot(TP.SlotOf(symbol, ops, e.orderId), e)
               && (c.bookState ==> SidesApart(symbol, OpsAfter(past, es[..n + 1]))))
  {
    var e, ops := es[n], OpsAfter(past, es[..n]);
    OpsNext(past, es, n);
    RefusedIff(symbol, ops, e);
    AppliedIs(symbol, ops, e);
    ApartIff(symbol, ops + OpsOfEvent(e));
  }

  /** One more event goes through exactly when it passes. */
  lemma StepGoes(symbol: nat, past: seq<Op>, es: seq<Event>, n: nat, c: Config, h: Hash, f: Feed)
    requires n < |es| && Going(symbol, past, es, n, c, f)
    ensures if Passes(symbol, past, es, n, c) then Going(symbol, past, es, n + 1, c, Step(f, es[n], c, h))
            else Step(f, es[n], c, h).stream.halted
  {
    OrderChecks(symbol, past, es, n, c, f);
    BookChecks(symbol, past, es, n, c);
  }

  ghost function Begin(symbol: nat, past: seq<Op>, es: seq<Event>, h: Hash): Feed {
    Feed(Run(Empty(symbol), past).0, START, Begun(ChecksumEvents(h, es)))
  }

  lemma FedNext(f: Feed, es: seq<Event>, n: nat, c: Config, h: Hash)
    requires n < |es|
    ensures Fed(f, es[..n + 1], c, h) == Step(Fed(f, es[..n], c, h), es[n], c, h)
  {
    assert es[..n + 1][..n] == es[..n];
  }

  lemma StartGoes(symbol: nat, past: seq<Op>, es: seq<Event>, c: Config, h: Hash)
    ensures Going(symbol, past, es, 0, c, Begin(symbol, past, es, h))
  {
    assert es[..0] == [];
  }

  lemma {:induction false} PrefixGoes(symbol: nat, past: seq<Op>, es: seq<Event>, n: nat, c: Config, h: Hash)
    requires n <= |es| && AllPass(symbol, past, es, n, c)
    ensures Going(symbol, past, es, n, c, Fed(Begin(symbol, past, es, h), es[..n], c, h))
  {
    var f0 := Begin(symbol, past, es, h);
    if n == 0 {
      StartGoes(symbol, past, es, c, h);
    } else {
      var m := n - 1;
      PrefixGoes(symbol, past, es, m, c, h);
      StepGoes(symbol, past, es, m, c, h, Fed(f0, es[..m], c, h));
      FedNext(f0, es, m, c, h);
      assert Passes(symbol, past, es, m, c) && m + 1 == n;
    }
  }

  lemma {:induction false} HaltLasts(f: Feed, es: seq<Event>, n: nat, m: nat, c: Config, h: Hash)
    requires n <= m <= |es| && Fed(f, es[..n], c, h).stream.halted
    ensures Fed(f, es[..m], c, h) == Fed(f, es[..n], c, h)
  {
    if n < m {
      HaltLasts(f, es, n, m - 1, c, h);
      FedNext(f, es, m - 1, c, h);
    }
  }

  /** A stream ends at the first event that does not pass, and nothing after it counts. */
  lemma StopsAt(symbol: nat, past: seq<Op>, es: seq<Event>, n: nat, c: Config, h: Hash)
    requires n < |es| && AllPass(symbol, past, es, n, c) && !Passes(symbol, past, es, n, c)
    ensures var f := Fed(Begin(symbol, past, es, h), es[..n], c, h);
      && Going(symbol, past, es, n, c, f) && Step(f, es[n], c, h).stream.halted
      && Fed(Begin(symbol, past, es, h), es, c, h) == Step(f, es[n], c, h)
  {
    var f0 := Begin(symbol, past, es, h);
    PrefixGoes(symbol, past, es, n, c, h);
    StepGoes(symbol, past, es, n, c, h, Fed(f0, es[..n], c, h));
    FedNext(f0, es, n, c, h);
    assert es[..|es|] == es;
    HaltLasts(f0, es, n + 1, |es|, c, h);
  }

  /** The only check a Light stream without events is given: that its book is not crossed to begin with. */
  ghost predicate LateCheck(symbol: nat, past: seq<Op>, es: seq<Event>, c: Config) {
    c.bookState && c.mode == Light && es == [] && !SidesApart(symbol, past)
  }

  lemma GoodStream(symbol: nat, past: seq<Op>, es: seq<Event>, c: Config, h: Hash)
    requires AllPass(symbol, past, es, |es|, c)
    ensures var r := Replayed(Run(Empty(symbol), past).0, es, c, h);
      && (r.valid <==> !LateCheck(symbol, past, es, c)) && (r.valid <==> r.diagnostics == []) && r.processed == |es|
  {
    PrefixGoes(symbol, past, es, |es|, c, h);
    assert es[..|es|] == es;
    ApartIff(symbol, OpsAfter(past, es));
    if es != [] { assert Passes(symbol, past, es, |es| - 1, c); }
  }

  lemma BadStream(symbol: nat, past: seq<Op>, es: seq<Event>, n: nat, c: Config, h: Hash)
    requires n < |es| && AllPass(symbol, past, es, n, c) && !Passes(symbol, past, es, n, c)
    ensures var r := Replayed(Run(Empty(symbol), past).0, es, c, h); !r.valid && r.diagnostics != []
  {
    StopsAt(symbol, past, es, n, c, h);
    HaltsOnce(Fed(Begin(symbol, past, es, h), es[..n], c, h), es[n], c, h);
  }

  lemma HaltsOnce(f: Feed, e: Event, c: Config, h: Hash)
    requires !f.stream.halted && f.result.diagnostics == [] && Step(f, e, c, h).stream.halted
    ensures var r := Step(f, e, c, h).result;
      !r.valid && r.processed == f.result.processed && |r.diagnostics| == 1 && r.error == Some(r.diagnostics[0].reason)
  {
  }

  /** Replay accepts a stream to its end exactly when every event passes; there is no diagnostic then. */
  lemma AcceptedIff(symbol: nat, past: seq<Op>, es: seq<Event>, c: Config, h: Hash)
    ensures var r := Replayed(Run(Empty(symbol), past).0, es, c, h);
      && (r.valid <==> AllPass(symbol, past, es, |es|, c) && !LateCheck(symbol, past, es, c))
      && (r.valid <==> r.diagnostics == []) && (r.valid ==> r.processed == |es|)
  {
    if AllPass(symbol, past, es, |es|, c) {
      GoodStream(symbol, past, es, c, h);
    } else {
      var n := FirstFailing(symbol, past, es, c);
      BadStream(symbol, past, es, n, c, h);
    }
  }

  lemma FirstFailing(symbol: nat, past: seq<Op>, es: seq<Event>, c: Config) returns (n: nat)
    requires !AllPass(symbol, past, es, |es|, c)
    ensures n < |es| && AllPass(symbol, past, es, n, c) && !Passes(symbol, past, es, n, c)
  {
    n := 0;
    while n < |es| && Passes(symbol, past, es, n, c)
      invariant n <= |es| && AllPass(symbol, past, es, n, c)
      decreases |es| - n
    {
      n := n + 1;
    }
  }

  // ----- what the diagnostic says

  /** The cause a reason names is there at event `n`. */
  ghost predicate Caused(symbol: nat, past: seq<Op>, es: seq<Event>, n: nat, c: Config, why: Reason)
    requires n < |es|
  {
    var e := es[n];
    var slot := TP.SlotOf(symbol, OpsAfter(past, es[..n]), e.orderId);
    match why
    case SequenceGap(expected, received) =>
      c.sequences && received == e.sequence && expected == es[0].sequence + n && received != expected
    case TimestampReversal(previous, now) => c.timestamps && n > 0 && previous == es[n - 1].timestamp && now == e.timestamp && now < previous
    case InvalidSymbol => e.symbolId == INVALID_ID
    case SymbolMismatch => e.symbolId != symbol
    case InvalidOrderId => (e.kind == AddEvent || e.kind == CancelEvent || e.kind == ReplaceEvent || e.kind == ExecuteEvent) && e.orderId == INVALID_ID
    case InvalidSide => (e.kind == AddEvent || e.kind == ReplaceEvent) && e.side == NoSide
    case InvalidPrice => (e.kind == AddEvent || e.kind == ReplaceEvent || e.kind == TradeEvent) && e.price <= 0
    case NegativePrice => (e.kind == CancelEvent || e.kind == ExecuteEvent || e.kind == SnapshotEvent || e.kind == HeartbeatEvent) && e.price < 0
    case InvalidQuantity =>
      (e.kind == AddEvent || e.kind == ReplaceEvent || e.kind == ExecuteEvent || e.kind == TradeEvent) && e.quantity <= 0
    case NegativeQuantity => (e.kind == CancelEvent || e.kind == SnapshotEvent || e.kind == HeartbeatEvent) && e.quantity < 0
    case DuplicateOrderId => e.kind == AddEvent && slot.Resting?
    case InvalidSnapshotSide => e.kind == SnapshotEvent && e.orderId != INVALID_ID && e.side == NoSide
    case InvalidSnapshotPrice => e.kind == SnapshotEvent && e.orderId != INVALID_ID && e.price <= 0
    case InvalidSnapshotQuantity => e.kind == SnapshotEvent && e.orderId != INVALID_ID && e.quantity <= 0
    case UnknownOrderId(kind) => kind == e.kind && (e.kind == CancelEvent || e.kind == ReplaceEvent || e.kind == ExecuteEvent) && slot.Vacant?
    case ExceedsResting => (e.kind == CancelEvent || e.kind == ExecuteEvent) && slot.Resting? && e.quantity > slot.order.quantity
    case ApplyFailed(kind) => kind == e.kind == SnapshotEvent && e.orderId != INVALID_ID && !BeginsSnapshot(e) && slot.Resting?
    case CrossedBook(bid, ask) => c.bookState && Touching(symbol, OpsAfter(past, es[..n + 1]), bid, ask) && bid >= ask
    case _ => false
  }

  /** The highest resting buy price and the lowest resting sell price. */
  ghost predicate Touching(symbol: nat, ops: seq<Op>, bid: int, ask: int) {
    && (exists k :: Quotes(symbol, ops, k, Buy, bid)) && (exists k :: Quotes(symbol, ops, k, Sell, ask))
    && (forall k, p :: Quotes(symbol, ops, k, Buy, p) ==> p <= bid) && (forall k, p :: Quotes(symbol, ops, k, Sell, p) ==> p >= ask)
  }

  predicate Quotes(symbol: nat, ops: seq<Op>, k: nat, side: Side, price: int) {
    var s := TP.SlotOf(symbol, ops, k);
    s.Resting? && s.order.side == side && s.order.price == price
  }

  /** The order in which the causes are looked for. */
  function Rank(why: Reason): nat {
    match why
    case SequenceGap(_, _) => 0
    case TimestampReversal(_, _) => 1
    case InvalidSymbol => 2
    case SymbolMismatch => 3
    case InvalidOrderId => 4
    case InvalidSide => 5
    case InvalidPrice => 6
    case NegativePrice => 6
    case InvalidQuantity => 7
    case NegativeQuantity => 7
    case DuplicateOrderId => 8
    case InvalidSnapshotSide => 8
    case UnknownOrderId(_) => 8
    case InvalidSnapshotPrice => 9
    case ExceedsResting => 9
    case InvalidSnapshotQuantity => 10
    case ApplyFailed(_) => 11
    case _ => 12
  }

  /** The first cause there is, in the order they are looked for. */
  ghost predicate FirstCause(symbol: nat, past: seq<Op>, es: seq<Event>, n: nat, c: Config, why: Reason)
    requires n < |es|
  {
    Caused(symbol, past, es, n, c, why) && forall other :: Caused(symbol, past, es, n, c, other) ==> Rank(why) <= Rank(other)
  }

  /** The causes an event carries in its own terms. */
  lemma MalformedCause(symbol: nat, past: seq<Op>, es: seq<Event>, n: nat, c: Config)
    requires n < |es|
    ensures var why := Malformed(es[n]);
      && (why != None ==> Caused(symbol, past, es, n, c, why.value) && 4 <= Rank(why.value) <= 7)
      && (forall other :: Caused(symbol, past, es, n, c, other) && 4 <= Rank(other) <= 7 ==> why != None && Rank(why.value) <= Rank(other))
  {
  }

  /** The causes that lie in the order an event names. */
  lemma UnfitCause(symbol: nat, past: seq<Op>, es: seq<Event>, n: nat, c: Config)
    requires n < |es|
    ensures var why := Unfit(Run(Empty(symbol), OpsAfter(past, es[..n])).0, es[n]);
      why != None ==> Caused(symbol, past, es, n, c, why.value) && 8 <= Rank(why.value) <= 10
  {
    TP.RunHolds(symbol, OpsAfter(past, es[..n]), es[n].orderId);
  }

  lemma UnfitFirst(symbol: nat, past: seq<Op>, es: seq<Event>, n: nat, c: Config, other: Reason)
    requires n < |es| && Caused(symbol, past, es, n, c, other) && 8 <= Rank(other) <= 10
    ensures var why := Unfit(Run(Empty(symbol), OpsAfter(past, es[..n])).0, es[n]);
      why != None && Rank(why.value) <= Rank(other)
  {
    TP.RunHolds(symbol, OpsAfter(past, es[..n]), es[n].orderId);
  }

  lemma RefusedCause(symbol: nat, past: seq<Op>, es: seq<Event>, n: nat, c: Config)
    requires n < |es|
    ensures var why := Refused(Run(Empty(symbol), OpsAfter(past, es[..n])).0, es[n]);
      why != None ==> Caused(symbol, past, es, n, c, why.value) && 2 <= Rank(why.value) <= 10
  {
    BookOfPast(symbol, OpsAfter(past, es[..n]));
    MalformedCause(symbol, past, es, n, c);
    UnfitCause(symbol, past, es, n, c);
  }

  lemma RefusedFirst(symbol: nat, past: seq<Op>, es: seq<Event>, n: nat, c: Config, other: Reason)
    requires n < |es| && Caused(symbol, past, es, n, c, other) && 2 <= Rank(other) <= 10
    ensures var why := Refused(Run(Empty(symbol), OpsAfter(past, es[..n])).0, es[n]);
      why != None && Rank(why.value) <= Rank(other)
  {
    BookOfPast(symbol, OpsAfter(past, es[..n]));
    MalformedCause(symbol, past, es, n, c);
    UnfitCause(symbol, past, es, n, c);
    if Rank(other) >= 8 { UnfitFirst(symbol, past, es, n, c, other); }
  }

  /** The best prices of a book are those its resting orders quote. */
  lemma TouchingIs(symbol: nat, ops: seq<Op>)
    ensures var b := Run(Empty(symbol), ops).0;
      TopOfBook(b) != None ==> TopOfBook(b).value.CrossedBook? && var r := TopOfBook(b).value; Touching(symbol, ops, r.bid, r.ask) && r.bid >= r.ask
  {
    var b := Run(Empty(symbol), ops).0;
    BookOfPast(symbol, ops);
    if TopOfBook(b) != None {
      BestIsQuoted(symbol, ops, Buy);
      BestIsQuoted(symbol, ops, Sell);
    }
  }

  lemma BestIsQuoted(symbol: nat, ops: seq<Op>, side: Side)
    requires ValidSide(side) && BestPrice(Run(Empty(symbol), ops).0, side) != None
    ensures var best := BestPrice(Run(Empty(symbol), ops).0, side).value;
      && (exists k :: Quotes(symbol, ops, k, side, best))
      && (forall k, p :: Quotes(symbol, ops, k, side, p) ==> p == best || Better(side, best, p))
  {
    var b := Run(Empty(symbol), ops).0;
    BookOfPast(symbol, ops);
    assert On(b, side).Keys != {};
    var best := Best(side, On(b, side).Keys);
    assert In(b, side, best, 0);
    FindIs(b, side, best, 0);
    TP.RunHolds(symbol, ops, Get(b, side, best, 0).orderId);
    assert Quotes(symbol, ops, Get(b, side, best, 0).orderId, side, best);
    forall k, p | Quotes(symbol, ops, k, side, p) ensures p == best || Better(side, best, p) {
      TP.RunHolds(symbol, ops, k);
      FoundOn(b, k);
    }
  }

  /** A crossed book is the last cause to be looked for. */
  lemma CrossedCause(symbol: nat, past: seq<Op>, es: seq<Event>, n: nat, c: Config)
    requires n < |es| && c.bookState
    requires TopOfBook(Run(Empty(symbol), OpsAfter(past, es[..n + 1])).0) != None
    ensures Caused(symbol, past, es, n, c, TopOfBook(Run(Empty(symbol), OpsAfter(past, es[..n + 1])).0).value)
  {
    TouchingIs(symbol, OpsAfter(past, es[..n + 1]));
  }

  /** The cause of a failed application is that a snapshot order already rests. */
  lemma FailedCause(symbol: nat, past: seq<Op>, es: seq<Event>, n: nat, c: Config)
    requires n < |es| && Refused(Run(Empty(symbol), OpsAfter(past, es[..n])).0, es[n]) == None
    ensures var failure := Applied(Run(Empty(symbol), OpsAfter(past, es[..n])).0, es[n]).1;
      && (failure != None ==> failure.value == ApplyFailed(SnapshotEvent) && Caused(symbol, past, es, n, c, failure.value))
      && (forall other :: Caused(symbol, past, es, n, c, other) && Rank(other) == 11 ==> failure != None)
  {
    var ops := OpsAfter(past, es[..n]);
    BookOfPast(symbol, ops);
    TP.RunHolds(symbol, ops, es[n].orderId);
    AcceptedApplies(Run(Empty(symbol), ops).0, es[n]);
  }

  /** Why a step halts: the first of the checks to fail. */
  ghost function Why(f: Feed, e: Event, c: Config): Option<Reason> {
    var (s1, gap) := Sequenced(f.stream, e, c);
    if gap != None then gap
    else if Timed(s1, e, c).1 != None then Timed(s1, e, c).1
    else if Refused(f.book, e) != None then Refused(f.book, e)
    else if Applied(f.book, e).1 != None then Applied(f.book, e).1
    else BookCheck(Applied(f.book, e).0, c)
  }

  lemma StepTells(f: Feed, e: Event, c: Config, h: Hash)
    requires !f.stream.halted && f.result.diagnostics == []
    ensures Step(f, e, c, h).stream.halted <==> Why(f, e, c) != None
    ensures Why(f, e, c) != None ==>
      Step(f, e, c, h).result.diagnostics == [Diagnostic(f.stream.index, e.sequence, e.symbolId, Why(f, e, c).value)]
  {
  }

  lemma NothingSooner(symbol: nat, past: seq<Op>, es: seq<Event>, n: nat, c: Config, other: Reason)
    requires n < |es| && Caused(symbol, past, es, n, c, other)
    ensures (c.sequences ==> InSequence(es, n)) ==> Rank(other) >= 1
    ensures (c.sequences ==> InSequence(es, n)) && (c.timestamps ==> InTime(es, n)) ==> Rank(other) >= 2
  {
  }

  /** The first cause among those that lie in the event, the order it names and the book it leaves. */
  lemma LaterCause(symbol: nat, past: seq<Op>, es: seq<Event>, n: nat, c: Config, why: Reason)
    requires n < |es| && (c.sequences ==> InSequence(es, n)) && (c.timestamps ==> InTime(es, n))
    requires var b := Run(Empty(symbol), OpsAfter(past, es[..n])).0;
      Some(why) == if Refused(b, es[n]) != None then Refused(b, es[n])
                   else if Applied(b, es[n]).1 != None then Applied(b, es[n]).1
                   else BookCheck(Applied(b, es[n]).0, c)
    ensures FirstCause(symbol, past, es, n, c, why)
  {
    var b := Run(Empty(symbol), OpsAfter(past, es[..n])).0;
    RefusedCause(symbol, past, es, n, c);
    if Refused(b, es[n]) == None {
      FailedCause(symbol, past, es, n, c);
      BookChecks(symbol, past, es, n, c);
      if Applied(b, es[n]).1 == None {
        CrossedCause(symbol, past, es, n, c);
      }
    }
    forall other | Caused(symbol, past, es, n, c, other) ensures Rank(why) <= Rank(other) {
      NothingSooner(symbol, past, es, n, c, other);
      RankBounded(symbol, past, es, n, c, other);
      if 2 <= Rank(other) <= 10 { RefusedFirst(symbol, past, es, n, c, other); }
    }
  }

  lemma RankBounded(symbol: nat, past: seq<Op>, es: seq<Event>, n: nat, c: Config, other: Reason)
    requires n < |es| && Caused(symbol, past, es, n, c, other)
    ensures Rank(other) <= 12 && (Rank(other) == 12 ==> other.CrossedBook?)
  {
  }

  lemma StepReason(symbol: nat, past: seq<Op>, es: seq<Event>, n: nat, c: Config, f: Feed)
    requires n < |es| && Going(symbol, past, es, n, c, f) && Why(f, es[n], c) != None
    ensures FirstCause(symbol, past, es, n, c, Why(f, es[n], c).value)
  {
    OrderChecks(symbol, past, es, n, c, f);
    if c.sequences && !InSequence(es, n) {
      assert Caused(symbol, past, es, n, c, SequenceGap(es[0].sequence + n, es[n].sequence));
    } else if c.timestamps && !InTime(es, n) {
      var why := TimestampReversal(es[n - 1].timestamp, es[n].timestamp);
      assert Caused(symbol, past, es, n, c, why);
      forall other | Caused(symbol, past, es, n, c, other) ensures Rank(why) <= Rank(other) {
        NothingSooner(symbol, past, es, n, c, other);
      }
    } else {
      LaterCause(symbol, past, es, n, c, Why(f, es[n], c).value);
    }
  }

  /** A stream that is not accepted has its one diagnostic at the first event that does not pass, and it
      names the first cause there is for that. */
  lemma RefusedAt(symbol: nat, past: seq<Op>, es: seq<Event>, n: nat, c: Config, h: Hash)
    requires n < |es| && AllPass(symbol, past, es, n, c) && !Passes(symbol, past, es, n, c)
    ensures var r := Replayed(Run(Empty(symbol), past).0, es, c, h);
      && !r.valid && r.processed == n && |r.diagnostics| == 1 && r.error == Some(r.diagnostics[0].reason)
      && r.diagnostics[0] == Diagnostic(n, es[n].sequence, es[n].symbolId, r.diagnostics[0].reason)
      && FirstCause(symbol, past, es, n, c, r.diagnostics[0].reason)
  {
    var f := Fed(Begin(symbol, past, es, h), es[..n], c, h);
    StopsAt(symbol, past, es, n, c, h);
    HaltsOnce(f, es[n], c, h);
    StepTells(f, es[n], c, h);
    StepReason(symbol, past, es, n, c, f);
  }

  // ----- what the result of an accepted stream covers

  /** The executions and trades of a stream, in order. */
  function Activity(es: seq<Event>): seq<Event> {
    if es == [] then []
    else Activity(es[..|es| - 1]) + if es[|es| - 1].kind == ExecuteEvent || es[|es| - 1].kind == TradeEvent then [es[|es| - 1]] else []
  }

  lemma ActivityNext(h: Hash, es: seq<Event>, n: nat)
    requires n < |es|
    ensures var e, done := es[n], ChecksumEvents(h, Activity(es[..n]));
      ChecksumEvents(h, Activity(es[..n + 1])) == if e.kind == ExecuteEvent || e.kind == TradeEvent then AppendEvent(h, done, e) else done
  {
    assert es[..n + 1][..n] == es[..n];
    assert (Activity(es[..n]) + [es[n]])[..|Activity(es[..n])|] == Activity(es[..n]) + [] == Activity(es[..n]);
  }

  lemma StepActivity(f: Feed, e: Event, c: Config, h: Hash)
    requires !f.stream.halted && !Step(f, e, c, h).stream.halted
    ensures Step(f, e, c, h).result.logChecksum == f.result.logChecksum
    ensures Step(f, e, c, h).result.executionChecksum
      == if e.kind == ExecuteEvent || e.kind == TradeEvent then AppendEvent(h, f.result.executionChecksum, e) else f.result.executionChecksum
  {
  }

  lemma ActivityStep(es: seq<Event>, n: nat, f: Feed, c: Config, h: Hash)
    requires n < |es| && !f.stream.halted && !Step(f, es[n], c, h).stream.halted
    requires f.result.executionChecksum == ChecksumEvents(h, Activity(es[..n]))
    ensures var r := Step(f, es[n], c, h).result;
      r.executionChecksum == ChecksumEvents(h, Activity(es[..n + 1])) && r.logChecksum == f.result.logChecksum
  {
    StepActivity(f, es[n], c, h);
    ActivityNext(h, es, n);
  }

  lemma {:induction false} PrefixActivity(symbol: nat, past: seq<Op>, es: seq<Event>, n: nat, c: Config, h: Hash)
    requires n <= |es| && AllPass(symbol, past, es, n, c)
    ensures var r := Fed(Begin(symbol, past, es, h), es[..n], c, h).result;
      r.executionChecksum == ChecksumEvents(h, Activity(es[..n])) && r.logChecksum == ChecksumEvents(h, es)
  {
    if n > 0 {
      var f0 := Begin(symbol, past, es, h);
      PrefixActivity(symbol, past, es, n - 1, c, h);
      PrefixGoes(symbol, past, es, n - 1, c, h);
      PrefixGoes(symbol, past, es, n, c, h);
      FedNext(f0, es, n - 1, c, h);
      ActivityStep(es, n - 1, Fed(f0, es[..n - 1], c, h), c, h);
    }
  }

  /** The checksums of an accepted stream: over all its events, over its executions and trades, and over the
      book that the operations of its past and of its events leave. */
  lemma AcceptedChecksums(symbol: nat, past: seq<Op>, es: seq<Event>, c: Config, h: Hash)
    requires AllPass(symbol, past, es, |es|, c)
    ensures var r := Replayed(Run(Empty(symbol), past).0, es, c, h);
      && r.logChecksum == ChecksumEvents(h, es) && r.executionChecksum == ChecksumEvents(h, Activity(es))
      && r.bookChecksum == BookChecksum(h.mix, Run(Empty(symbol), OpsAfter(past, es)).0)
  {
    var f := Fed(Begin(symbol, past, es, h), es, c, h);
    assert es[..|es|] == es;
    PrefixGoes(symbol, past, es, |es|, c, h);
    PrefixActivity(symbol, past, es, |es|, c, h);
    assert f.book == Run(Empty(symbol), OpsAfter(past, es)).0;
    assert Replayed(Run(Empty(symbol), past).0, es, c, h) == Finalized(f, c, h);
  }
}
