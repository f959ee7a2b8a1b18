/** The generator's flow is accepted for every draw exactly when its middle price is at least one tick,
    or there is nothing that could cross, or nobody looks. */
module GeneratorBounds {
  import opened Types
  import opened Ranking
  import B = Books
  import opened BookFrames
  import opened Events
  import R = Replays
  import RE = ReplayEngines
  import opened SharedReplays
  import opened Generators
  import opened GeneratorLaws

  /** Always the lowest draw, but the second side drawn is a sell. */
  function LowDraws(): Draws {
    (n: nat, lo: int, hi: int) => if n == 5 && lo == 0 && hi == 1 then 1 else lo
  }

  lemma LowDrawsAreUniform()
    ensures Uniform(LowDraws())
  {
  }

  function FirstBid(c: Setup): Active {
    Active(1, c.symbolId, Buy, 1, 1)
  }

  function FirstAsk(c: Setup): Active {
    Active(2, c.symbolId, Sell, 1, 1)
  }

  /** With no room below the middle price, both the first bid and the first ask are clamped to one tick. */
  lemma ClampedTogether(c: Setup)
    requires SingleSymbol(c) && c.mid <= 0
    ensures var g := Generated(c, LowDraws(), 2);
      g.events == [Stamped(c, 0, AddEvent, FirstBid(c), 1, 0), Stamped(c, 1, AddEvent, FirstAsk(c), 1, 0)]
  {
    var d := LowDraws();
    assert Generated(c, d, 0) == NO_EVENTS;
    assert Generated(c, d, 1) == AddStep(c, d, NO_EVENTS);
    var g := Generated(c, d, 1);
    assert g.active == [FirstBid(c)] && g.drawn == 4 && g.nextOrder == 2;
    assert d(4, 0, 99) == 0;
    assert Generated(c, d, 2) == AddStep(c, d, g);
  }

  lemma TwoOrdersCross(b: B.Book, bid: Order, ask: Order)
    requires b == B.Empty(b.symbol) && bid.symbolId == ask.symbolId == b.symbol && b.symbol != INVALID_ID
    requires ValidRestingOrder(bid) && ValidRestingOrder(ask) && bid.side == Buy && ask.side == Sell
    requires bid.orderId != ask.orderId
    requires bid.price >= ask.price
    ensures B.Add(b, bid).1 && B.Add(B.Add(b, bid).0, ask).1
    ensures R.TopOfBook(B.Add(B.Add(b, bid).0, ask).0) != None
  {
    B.PushSound(b, bid);
    var b1 := B.Push(b, bid);
    B.PushSound(b1, ask);
    var b2 := B.Push(b1, ask);
    assert bid.price in b2.bids && ask.price in b2.asks;
    ApartIffTopIsFine(b2);
  }

  /** So some draws make a flow that replay stops at. */
  lemma LowMidStops(c: Setup, rc: R.Config, h: Hash, log: int)
    requires SingleSymbol(c) && c.mid <= 0 && rc.bookState
    ensures var f := FedBy(c, rc, h, log, Generated(c, LowDraws(), 2).events); f.stream.halted
  {
    ClampedTogether(c);
    var e1, e2 := Stamped(c, 0, AddEvent, FirstBid(c), 1, 0), Stamped(c, 1, AddEvent, FirstAsk(c), 1, 0);
    var events := Generated(c, LowDraws(), 2).events;
    assert events == [e1, e2] && events[..1] == [e1] && [e1][..0] == [];
    TwoOrdersCross(B.Empty(c.symbolId), OrderOf(e1), OrderOf(e2));
    FedMore(c, rc, h, log, events);
    FedMore(c, rc, h, log, [e1]);
    var f0 := FedBy(c, rc, h, log, []);
    var f1 := R.Step(f0, e1, rc, h);
    if !f1.stream.halted {
      assert f1.book == B.Add(B.Empty(c.symbolId), OrderOf(e1)).0;
    }
  }

  lemma {:induction false} EventsGrow(c: Setup, d: Draws, k: nat, n: nat)
    requires k <= n
    ensures Generated(c, d, k).events <= Generated(c, d, n).events
    decreases n
  {
    if k < n {
      EventsGrow(c, d, k, n - 1);
      StepGrows(c, d, Generated(c, d, n - 1));
    }
  }

  lemma StepGrows(c: Setup, d: Draws, g: Gen)
    ensures g.events <= Step(c, d, g).events
  {
  }

  ghost predicate AlwaysAccepted(c: Setup, rc: R.Config, h: Hash) {
    forall d: Draws :: Uniform(d) ==> R.Replayed(B.Empty(c.symbolId), Generated(c, d, c.eventCount).events, rc, h).diagnostics == []
  }

  /** Every flow of a setup replays without a diagnostic exactly when its middle price is at least one
      tick, or it has fewer than two events, or replay does not look at the book. */
  lemma AcceptedIffMid(c: Setup, rc: R.Config, h: Hash)
    requires SingleSymbol(c)
    ensures AlwaysAccepted(c, rc, h) <==> c.mid >= 1 || c.eventCount < 2 || !rc.bookState
  {
    if Harmless(c, rc, c.eventCount) {
      forall d: Draws | Uniform(d)
        ensures R.Replayed(B.Empty(c.symbolId), Generated(c, d, c.eventCount).events, rc, h).diagnostics == []
      {
        FlowIsAccepted(c, d, rc, h);
      }
    } else {
      LowDrawsAreUniform();
      SomeFlowRefused(c, rc, h);
    }
  }

  lemma SomeFlowRefused(c: Setup, rc: R.Config, h: Hash)
    requires SingleSymbol(c) && c.eventCount >= 2 && rc.bookState && c.mid <= 0
    ensures R.Replayed(B.Empty(c.symbolId), Generated(c, LowDraws(), c.eventCount).events, rc, h).diagnostics != []
  {
    var events, two := Generated(c, LowDraws(), c.eventCount).events, Generated(c, LowDraws(), 2).events;
    var log := ChecksumEvents(h, events);
    var f := R.Feed(B.Empty(c.symbolId), R.START, R.Begun(log));
    EventsGrow(c, LowDraws(), 2, c.eventCount);
    ClampedTogether(c);
    LowMidStops(c, rc, h, log);
    assert events[..2] == two;
    RE.HaltedStays(f, events, 2, rc, h);
    R.HaltedIffInvalid(f, events, rc, h);
    NoErrorWhileValid(c, rc, h, log, events);
  }
}
