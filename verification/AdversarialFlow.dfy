/** The adversarial lifecycle flow: cycles of sixteen events that reuse, resize and finish one order at a time. */
module AdversarialFlows {
  import opened Types
  import B = Books
  import opened BookFrames
  import opened Events
  import R = Replays
  import RE = ReplayEngines
  import opened SharedReplays
  import opened Generators
  import opened GeneratorLaws

  // ----- the events

  function BidAt(c: Setup, cycle: nat): int {
    Max(1, c.mid - 5 - cycle % 17)
  }

  function AskAt(c: Setup, cycle: nat): int {
    c.mid + 5 + cycle % 17
  }

  datatype Shape = Shape(kind: EventKind, side: Side, price: int, quantity: int, orderId: nat, tradeId: nat)

  /** The k-th event of a cycle. */
  function ShapeAt(c: Setup, cycle: nat, k: nat): Shape {
    var buy, sell, trade := 2 * cycle + 1, 2 * cycle + 2, 3 * cycle;
    var bid, ask := BidAt(c, cycle), AskAt(c, cycle);
    var reuse, reprice := Max(1, bid - 1), Max(1, bid - 2);
    if k == 0 then Shape(AddEvent, Buy, bid, 100, buy, 0)
    else if k == 1 then Shape(CancelEvent, Buy, bid, 0, buy, 0)
    else if k == 2 then Shape(AddEvent, Buy, reuse, 80, buy, 0)
    else if k == 3 then Shape(ReplaceEvent, Buy, reuse, 120, buy, 0)
    else if k == 4 then Shape(ReplaceEvent, Buy, reuse, 60, buy, 0)
    else if k == 5 then Shape(ReplaceEvent, Buy, reprice, 70, buy, 0)
    else if k == 6 then Shape(CancelEvent, Buy, reprice, 0, buy, 0)
    else if k == 7 then Shape(AddEvent, Sell, ask, 90, sell, 0)
    else if k == 8 then Shape(ExecuteEvent, Sell, ask, 30, sell, trade + 1)
    else if k == 9 then Shape(ReplaceEvent, Sell, ask + 1, 50, sell, 0)
    else if k == 10 then Shape(ExecuteEvent, Sell, ask + 1, 50, sell, trade + 2)
    else if k == 11 then Shape(AddEvent, Sell, ask, 40, sell, 0)
    else if k == 12 then Shape(CancelEvent, Sell, ask, 20, sell, 0)
    else if k == 13 then Shape(CancelEvent, Sell, ask, 0, sell, 0)
    else if k == 14 then Shape(TradeEvent, Buy, bid, 1, INVALID_ID, trade + 3)
    else Shape(HeartbeatEvent, NoSide, 0, 0, INVALID_ID, 0)
  }

  datatype Place = Place(cycle: nat, k: nat)

  function NextPlace(p: Place): Place {
    if p.k >= 15 then Place(p.cycle + 1, 0) else Place(p.cycle, p.k + 1)
  }

  function PlaceOf(i: nat): (p: Place)
    ensures p.k < 16
  {
    if i == 0 then Place(0, 0) else NextPlace(PlaceOf(i - 1))
  }

  function EventAt(c: Setup, i: nat, s: Shape): Event {
    Event(c.firstTimestamp + i, c.firstSequence + i, c.symbolId, s.kind, s.side, s.price, s.quantity, s.orderId, s.tradeId, 0)
  }

  /** The first `n` events of the flow. */
  function Flow(c: Setup, n: nat): (es: seq<Event>)
    ensures |es| == n
  {
    if n == 0 then [] else
    var p := PlaceOf(n - 1);
    Flow(c, n - 1) + [EventAt(c, n - 1, ShapeAt(c, p.cycle, p.k))]
  }

  // ----- the generator's loop

  /** Adds an event unless the flow is already as long as asked for. */
  method Push(c: Setup, events: seq<Event>, s: Shape) returns (events': seq<Event>)
    ensures events' == if |events| >= c.eventCount then events else events + [EventAt(c, |events|, s)]
  {
    if |events| >= c.eventCount {
      return events;
    }
    return events + [EventAt(c, |events|, s)];
  }

  /** One cycle, or as much of it as there is room for. */
  method PushCycle(c: Setup, cycle: nat, earlier: seq<Event>) returns (events: seq<Event>)
    requires |earlier| < c.eventCount && earlier == Flow(c, |earlier|) && PlaceOf(|earlier|) == Place(cycle, 0)
    ensures |earlier| < |events| <= c.eventCount && events == Flow(c, |events|)
    ensures |events| < c.eventCount ==> PlaceOf(|events|) == Place(cycle + 1, 0)
  {
    events := earlier;
    for k := 0 to 16
      invariant |earlier| <= |events| <= c.eventCount && events == Flow(c, |events|) && (k > 0 ==> |events| > |earlier|)
      invariant |events| < c.eventCount ==> PlaceOf(|events|) == if k == 16 then Place(cycle + 1, 0) else Place(cycle, k)
    {
      events := Push(c, events, ShapeAt(c, cycle, k));
    }
  }

  method GenerateAdversarial(c: Setup) returns (events: seq<Event>)
    ensures events == Flow(c, c.eventCount)
  {
    events := [];
    var cycle := 0;
    while |events| < c.eventCount
      invariant |events| <= c.eventCount && events == Flow(c, |events|)
      invariant |events| < c.eventCount ==> PlaceOf(|events|) == Place(cycle, 0)
      decreases c.eventCount - |events|
    {
      events := PushCycle(c, cycle, events);
      cycle := cycle + 1;
    }
  }

  // ----- the one order that rests

  datatype Quote = Quote(id: nat, side: Side, price: int, quantity: int)

  /** The order resting before the k-th event of a cycle. */
  function QuoteAt(c: Setup, cycle: nat, k: nat): Option<Quote> {
    var buy, sell := 2 * cycle + 1, 2 * cycle + 2;
    var bid, ask := BidAt(c, cycle), AskAt(c, cycle);
    var reuse, reprice := Max(1, bid - 1), Max(1, bid - 2);
    if k == 1 then Some(Quote(buy, Buy, bid, 100))
    else if k == 3 then Some(Quote(buy, Buy, reuse, 80))
    else if k == 4 then Some(Quote(buy, Buy, reuse, 120))
    else if k == 5 then Some(Quote(buy, Buy, reuse, 60))
    else if k == 6 then Some(Quote(buy, Buy, reprice, 70))
    else if k == 8 then Some(Quote(sell, Sell, ask, 90))
    else if k == 9 then Some(Quote(sell, Sell, ask, 60))
    else if k == 10 then Some(Quote(sell, Sell, ask + 1, 50))
    else if k == 12 then Some(Quote(sell, Sell, ask, 40))
    else if k == 13 then Some(Quote(sell, Sell, ask, 20))
    else None
  }

  predicate IsQuote(o: Order, symbol: nat, q: Quote) {
    o.orderId == q.id && o.symbolId == symbol && o.side == q.side && o.price == q.price && o.quantity == q.quantity
  }

  ghost predicate Lone(b: B.Book, symbol: nat, q: Option<Quote>) {
    match q
    case None => b == B.Empty(symbol)
    case Some(x) => exists o :: ValidRestingOrder(o) && IsQuote(o, symbol, x) && b == B.Push(B.Empty(symbol), o)
  }

  /** What an event makes of the one quote, and whether it may. */
  function Quoted(q: Option<Quote>, s: Shape): (bool, Option<Quote>) {
    match s.kind
    case AddEvent =>
      (q == None && s.orderId > 0 && ValidSide(s.side) && s.price > 0 && s.quantity > 0,
       Some(Quote(s.orderId, s.side, s.price, s.quantity)))
    case CancelEvent =>
      (q != None && s.orderId == q.value.id && s.price >= 0 && 0 <= s.quantity < q.value.quantity,
       if q == None || s.quantity == 0 then None else Some(q.value.(quantity := q.value.quantity - s.quantity)))
    case ReplaceEvent =>
      (q != None && s.orderId == q.value.id && s.side == q.value.side && s.price > 0 && s.quantity > 0,
       if q == None then None else Some(q.value.(price := s.price, quantity := s.quantity)))
    case ExecuteEvent =>
      (q != None && s.orderId == q.value.id && s.price >= 0 && 0 < s.quantity <= q.value.quantity,
       if q == None || s.quantity == q.value.quantity then None else Some(q.value.(quantity := q.value.quantity - s.quantity)))
    case TradeEvent => (s.price > 0 && s.quantity > 0, q)
    case HeartbeatEvent => (s.price >= 0 && s.quantity >= 0, q)
    case SnapshotEvent => (false, q)
  }

  lemma LoneOrder(symbol: nat, o: Order)
    requires ValidRestingOrder(o) && o.symbolId == symbol
    ensures var b := B.Push(B.Empty(symbol), o);
      B.Sound(b) && (forall id :: B.Has(b, id) <==> id == o.orderId) && B.Find(b, o.orderId) == o && R.TopOfBook(b) == None
  {
    var e := B.Empty(symbol);
    assert !B.Has(e, o.orderId);
    B.PushSound(e, o);
    PushFinds(e, o);
    ApartIffTopIsFine(B.Push(e, o));
  }

  lemma LoneDrops(symbol: nat, o: Order)
    requires ValidRestingOrder(o) && o.symbolId == symbol
    ensures B.Drop(B.Push(B.Empty(symbol), o), o.orderId) == B.Empty(symbol)
  {
    LoneOrder(symbol, o);
    var b := B.Push(B.Empty(symbol), o);
    assert B.In(b, o.side, o.price, 0);
    B.DropIs(b, o.side, o.price, 0);
    assert B.RemoveAt([o], 0) == [];
    assert map[o.price := [o]] - {o.price} == map[];
  }

  lemma LoneShrinks(symbol: nat, o: Order, n: int)
    requires ValidRestingOrder(o) && o.symbolId == symbol
    ensures B.Shrink(B.Push(B.Empty(symbol), o), o.orderId, n) == B.Push(B.Empty(symbol), o.(quantity := o.quantity - n))
  {
    LoneOrder(symbol, o);
    var b := B.Push(B.Empty(symbol), o);
    assert B.In(b, o.side, o.price, 0);
    B.ShrinkIs(b, o.side, o.price, 0, n);
    var less := o.(quantity := o.quantity - n);
    assert [o][0 := less] == [less] && [] + [less] == [less];
    var ladder: B.Ladder := map[];
    assert ladder[o.price := [o]][o.price := [less]] == ladder[o.price := [less]];
    assert B.QueueAt(ladder, o.price) == [] && [] + [o] == [o];
    assert B.On(b, o.side) == ladder[o.price := [o]];
  }

  lemma EmptyIsFine(symbol: nat)
    ensures B.Sound(B.Empty(symbol)) && R.TopOfBook(B.Empty(symbol)) == None && forall id :: !B.Has(B.Empty(symbol), id)
  {
  }

  /** An event that suits the one quote is accepted and leaves what it should. */
  lemma LoneTakes(c: Setup, b: B.Book, q: Option<Quote>, s: Shape, i: nat)
    requires c.symbolId != INVALID_ID && Lone(b, c.symbolId, q) && Quoted(q, s).0
    ensures exists b' :: Takes(b, EventAt(c, i, s), b') && Lone(b', c.symbolId, Quoted(q, s).1) && R.TopOfBook(b') == None
  {
    var e, symbol := EventAt(c, i, s), c.symbolId;
    EmptyIsFine(symbol);
    if q == None {
      if s.kind == AddEvent {
        LoneOrder(symbol, OrderOf(e));
        assert Takes(b, e, B.Push(b, OrderOf(e)));
      } else {
        assert Takes(b, e, b);
      }
    } else {
      var o :| ValidRestingOrder(o) && IsQuote(o, symbol, q.value) && b == B.Push(B.Empty(symbol), o);
      LoneOrder(symbol, o);
      LoneQuoteTakes(c, o, q.value, s, i);
    }
  }

  lemma LoneQuoteTakes(c: Setup, o: Order, q: Quote, s: Shape, i: nat)
    requires c.symbolId != INVALID_ID && ValidRestingOrder(o) && IsQuote(o, c.symbolId, q) && Quoted(Some(q), s).0
    ensures var b := B.Push(B.Empty(c.symbolId), o);
      exists b' :: Takes(b, EventAt(c, i, s), b') && Lone(b', c.symbolId, Quoted(Some(q), s).1) && R.TopOfBook(b') == None
  {
    var e, symbol, b := EventAt(c, i, s), c.symbolId, B.Push(B.Empty(c.symbolId), o);
    LoneOrder(symbol, o);
    LoneDrops(symbol, o);
    LoneShrinks(symbol, o, s.quantity);
    EmptyIsFine(symbol);
    var smaller := o.(quantity := o.quantity - s.quantity);
    var other := o.(price := s.price, quantity := s.quantity, timestamp := e.timestamp, sequence := e.sequence);
    match s.kind
    case CancelEvent =>
      if s.quantity == 0 {
        assert Takes(b, e, B.Empty(symbol));
      } else {
        LoneOrder(symbol, smaller);
        assert Takes(b, e, B.Push(B.Empty(symbol), smaller));
      }
    case ReplaceEvent =>
      LoneOrder(symbol, other);
      assert Takes(b, e, B.Push(B.Empty(symbol), other));
    case ExecuteEvent =>
      if s.quantity == o.quantity {
        assert Takes(b, e, B.Empty(symbol));
      } else {
        LoneOrder(symbol, smaller);
        assert Takes(b, e, B.Push(B.Empty(symbol), smaller));
      }
    case TradeEvent => assert Takes(b, e, b);
    case HeartbeatEvent => assert Takes(b, e, b);
    case AddEvent =>
    case SnapshotEvent =>
  }

  // ----- the flow as a whole

  /** Every event of a cycle suits the quote before it and leaves the quote after it. */
  lemma CycleSuits(c: Setup, cycle: nat, k: nat)
    requires k < 16 && (c.mid >= -4 || k < 7)
    ensures var (fits, q') := Quoted(QuoteAt(c, cycle, k), ShapeAt(c, cycle, k)); var p := NextPlace(Place(cycle, k));
      fits && q' == QuoteAt(c, p.cycle, p.k)
  {
  }

  lemma EarlyPlaces(i: nat)
    requires i <= 7
    ensures PlaceOf(i) == Place(0, i)
  {
    if i > 0 {
      EarlyPlaces(i - 1);
    }
  }

  lemma FlowMore(c: Setup, rc: R.Config, h: Hash, log: int, n: nat)
    ensures var p := PlaceOf(n);
      FedBy(c, rc, h, log, Flow(c, n + 1)) == R.Step(FedBy(c, rc, h, log, Flow(c, n)), EventAt(c, n, ShapeAt(c, p.cycle, p.k)), rc, h)
  {
    assert Flow(c, n + 1)[..n] == Flow(c, n);
    FedMore(c, rc, h, log, Flow(c, n + 1));
  }

  predicate Adversarial(c: Setup) {
    c.symbolId != INVALID_ID && c.mode == AdversarialLifecycle
  }

  /** The first `n` events replay without complaint and leave what the cycle says, with the book uncrossed. */
  ghost predicate CleanSoFar(c: Setup, rc: R.Config, h: Hash, log: int, n: nat, p: Place) {
    var f := FedBy(c, rc, h, log, Flow(c, n));
    Clean(f, c, rc, n) && Lone(f.book, c.symbolId, QuoteAt(c, p.cycle, p.k)) && R.TopOfBook(f.book) == None
  }

  lemma {:induction false} FlowIsClean(c: Setup, rc: R.Config, h: Hash, log: int, n: nat)
    requires Adversarial(c) && (c.mid >= -4 || n <= 7)
    ensures CleanSoFar(c, rc, h, log, n, PlaceOf(n))
    decreases n
  {
    if n == 0 {
      NothingYet(c, rc, h, log);
    } else {
      var m, p := n - 1, PlaceOf(n);
      FlowIsClean(c, rc, h, log, m);
      SuitsEarly(c, m);
      CleanAfterNext(c, rc, h, log, m, PlaceOf(m));
      assert CleanSoFar(c, rc, h, log, m + 1, p);
    }
  }

  lemma SuitsEarly(c: Setup, i: nat)
    requires c.mid >= -4 || i < 7
    ensures c.mid >= -4 || PlaceOf(i).k < 7
  {
    if i < 7 { EarlyPlaces(i); }
  }

  lemma NothingYet(c: Setup, rc: R.Config, h: Hash, log: int)
    ensures CleanSoFar(c, rc, h, log, 0, Place(0, 0))
  {
    EmptyIsFine(c.symbolId);
  }

  lemma CleanAfterNext(c: Setup, rc: R.Config, h: Hash, log: int, n: nat, p: Place)
    requires Adversarial(c) && p == PlaceOf(n) && (c.mid >= -4 || p.k < 7)
    requires CleanSoFar(c, rc, h, log, n, p)
    ensures CleanSoFar(c, rc, h, log, n + 1, NextPlace(p))
  {
    var f, q, s := FedBy(c, rc, h, log, Flow(c, n)), QuoteAt(c, p.cycle, p.k), ShapeAt(c, p.cycle, p.k);
    CycleSuits(c, p.cycle, p.k);
    LoneTakes(c, f.book, q, s, n);
    var b' :| Takes(f.book, EventAt(c, n, s), b') && Lone(b', c.symbolId, Quoted(q, s).1) && R.TopOfBook(b') == None;
    CleanStep(f, c, rc, h, EventAt(c, n, s), n, b');
    FlowMore(c, rc, h, log, n);
  }

  lemma EighthEvent(c: Setup)
    requires c.mid < -4
    ensures var e := EventAt(c, 7, ShapeAt(c, 0, 7)); e.kind == AddEvent && e.price <= 0
  {
  }

  /** With the ask of the first cycle not positive, the eighth event is refused. */
  lemma EighthRefused(c: Setup, rc: R.Config, h: Hash, log: int)
    requires Adversarial(c) && c.mid < -4
    ensures FedBy(c, rc, h, log, Flow(c, 8)).stream.halted
  {
    EarlyPlaces(7);
    FlowMore(c, rc, h, log, 7);
    EighthEvent(c);
    BadAddHalts(FedBy(c, rc, h, log, Flow(c, 7)), EventAt(c, 7, ShapeAt(c, 0, 7)), rc, h);
  }

  /** An order at a price that is not positive is refused in any book. */
  lemma BadAddHalts(f: R.Feed, e: Event, rc: R.Config, h: Hash)
    requires e.kind == AddEvent && e.price <= 0
    ensures R.Step(f, e, rc, h).stream.halted
  {
    RefusedHalts(f, e, rc, h);
  }

  lemma RefusedHalts(f: R.Feed, e: Event, rc: R.Config, h: Hash)
    requires R.Refused(f.book, e) != None
    ensures R.Step(f, e, rc, h).stream.halted
  {
  }

  lemma {:induction false} FlowGrows(c: Setup, k: nat, n: nat)
    requires k <= n
    ensures Flow(c, n)[..k] == Flow(c, k)
    decreases n
  {
    if k < n {
      FlowGrows(c, k, n - 1);
      assert Flow(c, n)[..n - 1] == Flow(c, n - 1);
      assert Flow(c, n)[..k] == Flow(c, n - 1)[..k];
    } else {
      assert Flow(c, n)[..k] == Flow(c, n);
    }
  }

  /** The adversarial flow replays without a diagnostic exactly when it is too short to quote an ask, or
      its first ask is positive. */
  lemma AdversarialAcceptedIff(c: Setup, rc: R.Config, h: Hash)
    requires Adversarial(c)
    ensures R.Replayed(B.Empty(c.symbolId), Flow(c, c.eventCount), rc, h).diagnostics == [] <==> c.eventCount <= 7 || c.mid >= -4
  {
    var events := Flow(c, c.eventCount);
    var log := ChecksumEvents(h, events);
    var f := R.Feed(B.Empty(c.symbolId), R.START, R.Begun(log));
    if c.eventCount <= 7 || c.mid >= -4 {
      FlowIsClean(c, rc, h, log, c.eventCount);
    } else {
      EighthRefused(c, rc, h, log);
      FlowGrows(c, 8, c.eventCount);
      RE.HaltedStays(f, events, 8, rc, h);
      R.HaltedIffInvalid(f, events, rc, h);
      NoErrorWhileValid(c, rc, h, log, events);
    }
  }
}
