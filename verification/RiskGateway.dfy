/** The pre-trade risk gateway: checks on new orders and replacements, and the working-order totals
    it keeps up to date from acceptances, execution reports and cancellations. */
module RiskGateways {
  import opened Types
  import opened Ranking
  import opened Reports
  import opened FlatOrderIndexes
  import opened ClientOrderIds
  import opened RateLimits
  import opened WorkingOrders

  datatype RiskLimits = RiskLimits(maxOrderQuantity: int, maxNotional: int, maxPosition: int, maxGross: int, priceBand: int,
                                   staleAfter: int, maxOpen: int, maxMessages: nat, rateWindow: int, selfTrade: bool,
                                   rateMode: RateMode, cancelOnDisconnect: bool, rejectWhenDisconnected: bool)

  datatype Verdict =
    | Accepted | KillSwitch | Disconnected | MessageRateLimit | BadQuantity | BadPrice | DuplicateId | MaxOrderQuantity
    | StaleMarketData | PriceBand | MaxNotional | SelfTrade | MaxOpenOrderQuantity | MaxPosition | MaxGrossExposure | UnknownId

  datatype MarketState = MarketState(reference: int, timestamp: int)

  // ----- gross exposure

  ghost function Gross(positions: map<nat, int>, market: map<nat, MarketState>): int
    decreases |positions|
  {
    if positions == map[] then 0 else
    var s := Pick(positions.Keys);
    GrossOf(positions, market, s) + Gross(positions - {s}, market)
  }

  function GrossOf(positions: map<nat, int>, market: map<nat, MarketState>, s: nat): int
    requires s in positions
  {
    if s in market then Abs(positions[s]) * market[s].reference else 0
  }

  lemma {:induction false} GrossRemove(positions: map<nat, int>, market: map<nat, MarketState>, s: nat)
    requires s in positions
    ensures Gross(positions, market) == GrossOf(positions, market, s) + Gross(positions - {s}, market)
    decreases |positions|
  {
    var a := Pick(positions.Keys);
    if a != s {
      GrossRemove(positions - {a}, market, s);
      GrossRemove(positions - {s}, market, a);
      assert positions - {a} - {s} == positions - {s} - {a};
    }
  }

  method GrossExposure(positions: map<nat, int>, market: map<nat, MarketState>) returns (gross: int)
    ensures gross == Gross(positions, market)
  {
    gross := 0;
    var left := positions;
    while left != map[]
      invariant gross + Gross(left, market) == Gross(positions, market)
      decreases |left|
    {
      assert left.Keys != {};
      var s := PickOne(left.Keys);
      GrossRemove(left, market, s);
      if s in market {
        gross := gross + Abs(left[s]) * market[s].reference;
      }
      assert |left - {s}| < |left| by {
        assert left.Keys == (left - {s}).Keys + {s};
      }
      left := left - {s};
    }
  }

  // ----- the order checks, as far as they do not touch the gateway's own state

  function Notional(r: NewRequest, market: map<nat, MarketState>): int {
    var price := if r.orderType != Market then r.price else if r.symbolId in market then market[r.symbolId].reference else 0;
    Abs(price * r.quantity)
  }

  predicate Stale(market: map<nat, MarketState>, symbol: nat, now: int, limits: RiskLimits) {
    symbol !in market || (limits.staleAfter > 0 && now - market[symbol].timestamp > limits.staleAfter)
  }

  predicate OffBand(market: map<nat, MarketState>, r: NewRequest, limits: RiskLimits)
    requires r.symbolId in market
  {
    r.orderType == Limit && Abs(r.price - market[r.symbolId].reference) > limits.priceBand
  }

  function Projected(positions: map<nat, int>, r: NewRequest): int {
    Lookup(positions, r.symbolId) + if r.side == Buy then r.quantity else -r.quantity
  }

  /** Whether an accepted order rests, and so is tracked. */
  predicate RestsTracked(r: NewRequest, limits: RiskLimits) {
    (limits.maxOpen > 0 || limits.selfTrade) && r.orderType == Limit && r.tif == Gtc
  }

  function Working(r: NewRequest): WorkingOrder {
    WorkingOrder(r.clientId, r.symbolId, r.side, r.price, r.quantity, INVALID_ID)
  }

  /** A report that takes its order out of the book. */
  predicate Terminal(r: Report) {
    r.execType == ExecRejected || r.status == Rejected || r.status == Canceled || r.status == Filled || r.remaining <= 0
  }

  /** One symbol's open quantity moved by so much, and no other's moved. */
  ghost predicate Shifted(before: map<nat, int>, after: map<nat, int>, symbol: nat, delta: int) {
    forall s: nat :: Lookup(after, s) == Lookup(before, s) + if s == symbol then delta else 0
  }

  ghost predicate Shrunk(before: map<nat, int>, after: map<nat, int>) {
    forall s: nat :: Lookup(after, s) <= Lookup(before, s)
  }

  /** Open quantity within its limit in every symbol. */
  ghost predicate WithinLimit(limits: RiskLimits, open: map<nat, int>) {
    limits.maxOpen > 0 ==> forall s :: s in open ==> open[s] <= limits.maxOpen
  }

  /** The working order a report is about: by its client order id, or else by its exchange id. */
  function Found(orders: Orders, exchangeToClient: map<nat, nat>, clientOrderId: nat, exchangeId: nat): Option<nat> {
    if clientOrderId in orders then Some(clientOrderId)
    else if exchangeId != INVALID_ID && exchangeId in exchangeToClient && exchangeToClient[exchangeId] in orders then
      Some(exchangeToClient[exchangeId])
    else None
  }

  /** The working order an exchange id leads to. */
  function LedTo(orders: Orders, exchangeToClient: map<nat, nat>, exchangeId: nat): Option<nat> {
    if exchangeId in exchangeToClient && exchangeToClient[exchangeId] in orders then Some(exchangeToClient[exchangeId]) else None
  }

  /** The order a replacement names has its new price and quantity, its symbol's open quantity has moved
      with it, and nothing else has. */
  ghost predicate Replaces(orders: Orders, orders': Orders, open: map<nat, int>, open': map<nat, int>, named: Option<nat>, r: ReplaceRequest) {
    && named != None && named.value in orders && var k := named.value; var o := orders[k];
    orders' == orders[k := o.(price := r.price, quantity := r.quantity)] && Shifted(open, open', o.symbol, r.quantity - o.quantity)
  }

  /** Whether the quantity a report gives its order leaves the symbol within its limit; a report that
      does not raise the quantity always does. */
  predicate ReportFits(limits: RiskLimits, orders: Orders, open: map<nat, int>, exchangeToClient: map<nat, nat>,
                       r: Report) {
    var found := Found(orders, exchangeToClient, r.clientOrderId, r.orderId);
    limits.maxOpen > 0 && r.clientOrderId != INVALID_ID && found != None && !Terminal(r) ==>
      Lookup(open, orders[found.value].symbol) + r.remaining - orders[found.value].quantity <= limits.maxOpen
  }

  /** An order's exchange id is now `to`, and leads back to it; with no new id, nothing changes. */
  ghost predicate Rebinds(before: map<nat, nat>, after: map<nat, nat>, from: nat, to: nat, k: nat) {
    if to == INVALID_ID || to == from then after == before
    else
      && to in after && after[to] == k && (from != INVALID_ID ==> from !in after)
      && forall x :: x != to && (x != from || from == INVALID_ID) ==> SameAt(before, after, x)
  }

  /** An exchange id leads nowhere any more. */
  ghost predicate Unbinds(before: map<nat, nat>, after: map<nat, nat>, from: nat) {
    if from == INVALID_ID then after == before
    else from !in after && forall x :: x != from ==> SameAt(before, after, x)
  }

  predicate SameAt(before: map<nat, nat>, after: map<nat, nat>, x: nat) {
    (x in after <==> x in before) && (x in after ==> after[x] == before[x])
  }

  /** A working order as a report leaves it: the quantity reported, the price and the exchange id if one is. */
  function Reported(o: WorkingOrder, r: Report): WorkingOrder {
    o.(quantity := r.remaining, price := if r.restingPrice > 0 then r.restingPrice else o.price,
       exchangeId := if r.orderId != INVALID_ID then r.orderId else o.exchangeId)
  }

  class RiskGateway {
    const limits: RiskLimits
    const ids: ClientOrderIdSet
    const limiter: RateLimiter
    var killed: bool
    var connected: bool
    var disconnects: nat
    var disconnectCancels: nat
    var market: map<nat, MarketState>
    var positions: map<nat, int>
    var open: map<nat, int>
    var books: map<(nat, nat), ClientBook>
    var orders: Orders
    var exchangeToClient: map<nat, nat>

    ghost predicate Tracked()
      reads this
    {
      Agree(orders, Totals(open, books), limits.selfTrade)
    }

    ghost predicate Valid()
      reads this, ids, limiter
    {
      && ids.Valid() && limiter.Valid() && Tracked() && orders.Keys <= ids.View()
      && limiter.mode == limits.rateMode && limiter.max == limits.maxMessages && limiter.window == limits.rateWindow
    }

    ghost predicate WithinOpen()
      reads this
    {
      WithinLimit(limits, open)
    }

    constructor (limits: RiskLimits, hash: Hash)
      ensures Valid() && fresh(ids) && fresh(limiter) && this.limits == limits && !killed && connected && WithinOpen()
      ensures orders == map[] && open == map[] && books == map[] && exchangeToClient == map[] && market == map[] && positions == map[]
      ensures ids.View() == {} && limiter.history == map[] && disconnects == 0 && disconnectCancels == 0
    {
      this.limits := limits;
      ids := new ClientOrderIdSet(hash);
      limiter := new RateLimiter(limits.rateMode, limits.maxMessages, limits.rateWindow);
      killed, connected, disconnects, disconnectCancels := false, true, 0, 0;
      market, positions, open, books, orders, exchangeToClient := map[], map[], map[], map[], map[], map[];
    }

    // ----- totals

    method AddQuantity(o: WorkingOrder, quantity: int)
      requires quantity > 0
      modifies this`open, this`books
      ensures Totals(open, books) == Added(old(Totals(open, books)), o, quantity, limits.selfTrade)
    {
      open := open[o.symbol := Lookup(open, o.symbol) + quantity];
      if limits.selfTrade {
        var key := (o.client, o.symbol);
        var book := if key in books then books[key] else ClientBook(map[], map[]);
        if o.side == Buy {
          books := books[key := book.(buys := book.buys[o.price := Lookup(book.buys, o.price) + quantity])];
        } else if o.side == Sell {
          books := books[key := book.(sells := book.sells[o.price := Lookup(book.sells, o.price) + quantity])];
        } else {
          books := books[key := book];
        }
      }
    }

    method ReleaseQuantity(o: WorkingOrder)
      requires o.quantity > 0 && Clean(Totals(open, books))
      modifies this`open, this`books
      ensures Totals(open, books) == Released(old(Totals(open, books)), o, o.quantity)
    {
      ReleaseOpen(o.symbol, o.quantity);
      ReleaseLevel(o);
    }

    method ReleaseOpen(symbol: nat, quantity: int)
      modifies this`open
      ensures open == Drain(old(open), symbol, quantity)
    {
      if symbol in open {
        open := open[symbol := open[symbol] - quantity];
        if open[symbol] <= 0 {
          open := open - {symbol};
        }
      }
    }

    /** Takes an order's quantity off its client's book, and the book away once both its sides are empty. */
    method ReleaseLevel(o: WorkingOrder)
      modifies this`books
      ensures books == Released(old(Totals(open, books)), o, o.quantity).books
    {
      var key := (o.client, o.symbol);
      if key in books {
        var book := books[key];
        if o.side == Buy {
          var levels := DrainLevel(book.buys, o.price, o.quantity);
          book := book.(buys := levels);
        } else if o.side == Sell {
          var levels := DrainLevel(book.sells, o.price, o.quantity);
          book := book.(sells := levels);
        }
        books := books[key := book];
        if book.buys == map[] && book.sells == map[] {
          books := books - {key};
        }
      }
    }

    static method DrainLevel(levels: map<int, int>, price: int, quantity: int) returns (left: map<int, int>)
      ensures left == Drain(levels, price, quantity)
    {
      left := levels;
      if price in left {
        left := left[price := left[price] - quantity];
        if left[price] <= 0 {
          left := left - {price};
        }
      }
    }

    // ----- the life of a working order

    method RegisterOrder(r: NewRequest)
      requires Tracked() && RestsTracked(r, limits) && r.quantity > 0 && r.clientOrderId !in orders
      modifies this`orders, this`open, this`books
      ensures Tracked() && orders == old(orders)[r.clientOrderId := Working(r)]
      ensures Shifted(old(open), open, r.symbolId, r.quantity)
    {
      RegisterAgrees(orders, Totals(open, books), r.clientOrderId, Working(r), limits.selfTrade);
      orders := orders[r.clientOrderId := Working(r)];
      AddQuantity(Working(r), r.quantity);
    }

    /** Forgets an order once it no longer rests; unknown ids are ignored. */
    method ReleaseOrder(clientOrderId: nat)
      requires Tracked()
      modifies this`orders, this`open, this`books, this`exchangeToClient
      ensures Tracked() && orders == old(orders) - {clientOrderId}
      ensures Unbinds(old(exchangeToClient), exchangeToClient,
                      if clientOrderId in old(orders) then old(orders)[clientOrderId].exchangeId else INVALID_ID)
      ensures Shrunk(old(open), open)
    {
      if clientOrderId !in orders {
        assert orders - {clientOrderId} == orders;
        return;
      }
      var o := orders[clientOrderId];
      ReleaseTotals(orders, Totals(open, books), clientOrderId, limits.selfTrade);
      ReleaseQuantity(o);
      if o.exchangeId != INVALID_ID {
        exchangeToClient := exchangeToClient - {o.exchangeId};
      }
      orders := orders - {clientOrderId};
    }

    method BindExchangeId(clientOrderId: nat, exchangeId: nat)
      requires Tracked() && clientOrderId in orders
      modifies this`orders, this`exchangeToClient
      ensures Tracked()
      ensures var o := old(orders)[clientOrderId];
        && orders == old(orders)[clientOrderId := o.(exchangeId := if exchangeId != INVALID_ID then exchangeId else o.exchangeId)]
        && Rebinds(old(exchangeToClient), exchangeToClient, o.exchangeId, exchangeId, clientOrderId)
    {
      var o := orders[clientOrderId];
      if exchangeId == INVALID_ID || o.exchangeId == exchangeId {
        return;
      }
      RebindAgrees(orders, Totals(open, books), clientOrderId, exchangeId, limits.selfTrade);
      if o.exchangeId != INVALID_ID {
        exchangeToClient := exchangeToClient - {o.exchangeId};
      }
      orders := orders[clientOrderId := o.(exchangeId := exchangeId)];
      exchangeToClient := exchangeToClient[exchangeId := clientOrderId];
    }

    /** Gives a working order a new price and quantity. */
    method Requote(clientOrderId: nat, price: int, quantity: int)
      requires Tracked() && clientOrderId in orders && quantity > 0
      modifies this`orders, this`open, this`books
      ensures Tracked()
      ensures orders == old(orders)[clientOrderId := old(orders)[clientOrderId].(price := price, quantity := quantity)]
      ensures Shifted(old(open), open, old(orders)[clientOrderId].symbol, quantity - old(orders)[clientOrderId].quantity)
    {
      var previous := orders[clientOrderId];
      var o := previous.(price := price, quantity := quantity);
      RequoteTotals(orders, Totals(open, books), clientOrderId, o, limits.selfTrade);
      ReleaseQuantity(previous);
      orders := orders[clientOrderId := o];
      AddQuantity(o, quantity);
    }

    function FindOrder(clientOrderId: nat, exchangeId: nat): Option<nat>
      reads this
    {
      Found(orders, exchangeToClient, clientOrderId, exchangeId)
    }

    /** A report ends its order, or brings it to the quantity and price reported. */
    method OnExecutionReport(r: Report)
      requires Valid()
      modifies this`orders, this`open, this`books, this`exchangeToClient
      ensures Valid()
      ensures r.clientOrderId != INVALID_ID && old(FindOrder(r.clientOrderId, r.orderId)) != None && Terminal(r) ==>
        && orders == old(orders) - {r.clientOrderId} && Shrunk(old(open), open)
        && Unbinds(old(exchangeToClient), exchangeToClient,
                   if r.clientOrderId in old(orders) then old(orders)[r.clientOrderId].exchangeId else INVALID_ID)
      ensures r.clientOrderId != INVALID_ID && old(FindOrder(r.clientOrderId, r.orderId)) != None && !Terminal(r) ==>
        var k := old(FindOrder(r.clientOrderId, r.orderId)).value; var o := old(orders)[k];
        && orders == old(orders)[k := Reported(o, r)] && Shifted(old(open), open, o.symbol, r.remaining - o.quantity)
        && Rebinds(old(exchangeToClient), exchangeToClient, o.exchangeId, r.orderId, k)
      ensures r.clientOrderId == INVALID_ID || old(FindOrder(r.clientOrderId, r.orderId)) == None ==>
        orders == old(orders) && open == old(open) && exchangeToClient == old(exchangeToClient)
      ensures old(WithinOpen()) ==> WithinOpen() == old(ReportFits(limits, orders, open, exchangeToClient, r))
    {
      if r.clientOrderId == INVALID_ID {
        return;
      }
      var found := FindOrder(r.clientOrderId, r.orderId);
      if found != None {
        ApplyReport(found.value, r);
      }
    }

    /** A report about a working order that is known. */
    method ApplyReport(k: nat, r: Report)
      requires Tracked() && k in orders
      modifies this`orders, this`open, this`books, this`exchangeToClient
      ensures Tracked() && orders.Keys <= old(orders).Keys
      ensures Terminal(r) ==>
        && orders == old(orders) - {r.clientOrderId} && Shrunk(old(open), open)
        && Unbinds(old(exchangeToClient), exchangeToClient,
                   if r.clientOrderId in old(orders) then old(orders)[r.clientOrderId].exchangeId else INVALID_ID)
      ensures !Terminal(r) ==>
        && orders == old(orders)[k := Reported(old(orders)[k], r)]
        && Rebinds(old(exchangeToClient), exchangeToClient, old(orders)[k].exchangeId, r.orderId, k)
      ensures !Terminal(r) ==> Shifted(old(open), open, old(orders)[k].symbol, r.remaining - old(orders)[k].quantity)
      ensures old(WithinOpen()) ==> WithinOpen() == (limits.maxOpen > 0 && !Terminal(r) ==>
                old(Lookup(open, orders[k].symbol) + r.remaining - orders[k].quantity) <= limits.maxOpen)
    {
      if Terminal(r) {
        ReleaseOrder(r.clientOrderId);
        if old(WithinOpen()) { ShrinksWithin(limits, old(open), open); }
      } else {
        UpdateOrder(k, r);
        if old(WithinOpen()) {
          StaysWithin(limits, old(open), open, old(orders)[k].symbol, r.remaining - old(orders)[k].quantity);
        }
      }
    }

    method UpdateOrder(k: nat, r: Report)
      requires Tracked() && k in orders && r.remaining > 0
      modifies this`orders, this`open, this`books, this`exchangeToClient
      ensures Tracked() && orders == old(orders)[k := Reported(old(orders)[k], r)]
      ensures Rebinds(old(exchangeToClient), exchangeToClient, old(orders)[k].exchangeId, r.orderId, k)
      ensures Shifted(old(open), open, old(orders)[k].symbol, r.remaining - old(orders)[k].quantity)
    {
      BindExchangeId(k, r.orderId);
      var o := orders[k];
      var price := if r.restingPrice > 0 then r.restingPrice else o.price;
      if o.quantity != r.remaining || o.price != price {
        Requote(k, price, r.remaining);
      }
    }

    method CancelAll(onDisconnect: bool)
      requires Tracked()
      modifies this`orders, this`open, this`books, this`exchangeToClient, this`disconnectCancels
      ensures Tracked() && orders == map[] && open == map[] && books == map[] && exchangeToClient == map[]
      ensures disconnectCancels == old(disconnectCancels) + if onDisconnect then |old(orders)| else 0
    {
      if onDisconnect {
        disconnectCancels := disconnectCancels + |orders|;
      }
      open, orders, exchangeToClient, books := map[], map[], map[], map[];
    }

    method EnableKillSwitch()
      requires Valid()
      modifies this`killed, this`orders, this`open, this`books, this`exchangeToClient, this`disconnectCancels
      ensures Valid() && killed && orders == map[] && open == map[] && exchangeToClient == map[]
      ensures disconnectCancels == old(disconnectCancels)
    {
      killed := true;
      CancelAll(false);
    }

    method OnDisconnect()
      requires Valid()
      modifies this`connected, this`disconnects, this`orders, this`open, this`books, this`exchangeToClient, this`disconnectCancels
      ensures Valid() && !connected && disconnects == old(disconnects) + if old(connected) then 1 else 0
      ensures var cancels := old(connected) && limits.cancelOnDisconnect;
        && disconnectCancels == old(disconnectCancels) + (if cancels then |old(orders)| else 0)
        && if cancels then orders == map[] && open == map[] && exchangeToClient == map[]
           else orders == old(orders) && open == old(open) && books == old(books) && exchangeToClient == old(exchangeToClient)
    {
      if !connected {
        return;
      }
      connected := false;
      disconnects := disconnects + 1;
      if limits.cancelOnDisconnect {
        CancelAll(true);
      }
    }

    method OnReconnect()
      requires Valid()
      modifies this`connected
      ensures Valid() && connected
    {
      connected := true;
    }

    method OnMarketData(symbol: nat, reference: int, timestamp: int)
      requires Valid()
      modifies this`market
      ensures Valid() && market == old(market)[symbol := MarketState(reference, timestamp)]
    {
      market := market[symbol := MarketState(reference, timestamp)];
    }

    method SetPosition(symbol: nat, signedPosition: int)
      requires Valid()
      modifies this`positions
      ensures Valid() && positions == old(positions)[symbol := signedPosition]
    {
      positions := positions[symbol := signedPosition];
    }

    // ----- what the checks decide

    /** What the limiter has counted once it has seen one more message. */
    ghost function Noted(client: nat, now: int): map<nat, seq<int>>
      reads this, limiter
    {
      if limits.maxMessages > 0 && limits.rateWindow > 0 then limiter.history[client := limiter.Sent(client) + [now]] else limiter.history
    }

    ghost predicate RateRefused(client: nat, now: int)
      reads this, limiter
    {
      limits.maxMessages > 0 && limits.rateWindow > 0
      && !LastAllowed(limits.rateMode, limiter.Sent(client) + [now], limits.rateWindow, limits.maxMessages)
    }

    function MarketVerdict(r: NewRequest, now: int): Verdict
      reads this
    {
      if Stale(market, r.symbolId, now, limits) then StaleMarketData
      else if OffBand(market, r, limits) then PriceBand
      else if Notional(r, market) > limits.maxNotional then MaxNotional
      else Accepted
    }

    /** The open quantity the order would bring its symbol to, if it is one that counts. */
    ghost function ExposureVerdict(r: NewRequest, projectedOpen: Option<int>): Verdict
      reads this
    {
      if limits.selfTrade && !r.postOnly && ValidSide(r.side)
         && OwnOpposite(orders, r.clientId, r.symbolId, r.side, r.orderType == Market, r.price) then SelfTrade
      else if limits.maxOpen > 0 && projectedOpen != None && projectedOpen.value > limits.maxOpen then MaxOpenOrderQuantity
      else if Abs(Projected(positions, r)) > limits.maxPosition then MaxPosition
      else if Notional(r, market) + Gross(positions, market) > limits.maxGross then MaxGrossExposure
      else Accepted
    }

    function ProjectedOpen(r: NewRequest): Option<int>
      reads this
    {
      if r.orderType == Limit && r.tif == Gtc then Some(Lookup(open, r.symbolId) + r.quantity) else None
    }

    /** The first reason to refuse a new order, in the order of the checks. */
    ghost function NewVerdict(r: NewRequest, now: int): Verdict
      reads this, ids, limiter
    {
      if MessageVerdict(r.clientId, now) != Accepted then MessageVerdict(r.clientId, now) else CountedVerdict(r, now)
    }

    /** The verdict on a client's message, whatever it asks for. */
    ghost function MessageVerdict(client: nat, now: int): Verdict
      reads this, limiter
    {
      if killed then KillSwitch
      else if !connected && limits.rejectWhenDisconnected then Disconnected
      else if RateRefused(client, now) then MessageRateLimit
      else Accepted
    }

    /** The verdict on a new order whose message has been counted and let through. */
    ghost function CountedVerdict(r: NewRequest, now: int): Verdict
      reads this, ids
    {
      if r.quantity <= 0 then BadQuantity
      else if r.orderType == Limit && r.price <= 0 then BadPrice
      else if r.clientOrderId in ids.View() then DuplicateId
      else if r.quantity > limits.maxOrderQuantity then MaxOrderQuantity
      else if MarketVerdict(r, now) != Accepted then MarketVerdict(r, now)
      else ExposureVerdict(r, ProjectedOpen(r))
    }

    function Replacement(r: ReplaceRequest, o: WorkingOrder): NewRequest {
      NewRequest(r.clientOrderId, o.symbol, o.side, Limit, r.price, r.quantity, r.timestamp, o.client, Gtc, false)
    }

    /** The working order a replacement names. */
    function Named(r: ReplaceRequest): Option<nat>
      reads this
    {
      LedTo(orders, exchangeToClient, r.orderId)
    }

    /** The checks on an order's own terms, after those on its form and its ids. */
    ghost function TermsVerdict(r: NewRequest, projectedOpen: Option<int>, now: int): Verdict
      reads this, limiter
    {
      if RateRefused(r.clientId, now) then MessageRateLimit
      else if r.quantity > limits.maxOrderQuantity then MaxOrderQuantity
      else if MarketVerdict(r, now) != Accepted then MarketVerdict(r, now)
      else ExposureVerdict(r, projectedOpen)
    }

    /** The verdict on replacing a working order that is known. */
    ghost function KnownVerdict(k: nat, r: ReplaceRequest, now: int): Verdict
      requires k in orders
      reads this, limiter
    {
      TermsVerdict(Replacement(r, orders[k]), Some(Lookup(open, orders[k].symbol) - orders[k].quantity + r.quantity), now)
    }

    ghost function NamedVerdict(r: ReplaceRequest, now: int): Verdict
      reads this, limiter
    {
      if Named(r) == None then UnknownId else KnownVerdict(Named(r).value, r, now)
    }

    ghost function ReplaceVerdict(r: ReplaceRequest, now: int): Verdict
      reads this, ids, limiter
    {
      if FormVerdict(r) != Accepted then FormVerdict(r) else NamedVerdict(r, now)
    }

    // ----- the checks themselves

    method RateLimitAllows(client: nat, now: int) returns (allowed: bool)
      requires Valid()
      modifies limiter`states, limiter`history
      ensures Valid() && allowed == !old(RateRefused(client, now)) && limiter.history == old(Noted(client, now))
    {
      var observed;
      allowed, observed := limiter.Allows(client, now);
    }

    method CheckMarket(r: NewRequest, now: int) returns (v: Verdict)
      ensures v == MarketVerdict(r, now)
    {
      if r.symbolId !in market {
        return StaleMarketData;
      }
      var age := now - market[r.symbolId].timestamp;
      if limits.staleAfter > 0 && age > limits.staleAfter {
        return StaleMarketData;
      }
      if r.orderType == Limit && Abs(r.price - market[r.symbolId].reference) > limits.priceBand {
        return PriceBand;
      }
      if Notional(r, market) > limits.maxNotional {
        return MaxNotional;
      }
      return Accepted;
    }

    /** Compares the order with the client's best own price on the other side only. */
    method SelfTradeAllows(r: NewRequest) returns (allowed: bool)
      requires Tracked()
      ensures allowed == !(limits.selfTrade && !r.postOnly && ValidSide(r.side)
                           && OwnOpposite(orders, r.clientId, r.symbolId, r.side, r.orderType == Market, r.price))
    {
      if !limits.selfTrade || r.postOnly {
        return true;
      }
      if ValidSide(r.side) {
        BestDecides(orders, Totals(open, books), r.clientId, r.symbolId, r.side, r.orderType == Market, r.price);
      }
      var key := (r.clientId, r.symbolId);
      if key !in books {
        return true;
      }
      var isMarket := r.orderType == Market;
      if r.side == Buy && books[key].sells != map[] {
        var opposing := LowestPrice(books[key].sells, Sell);
        return !isMarket && r.price < opposing;
      }
      if r.side == Sell && books[key].buys != map[] {
        var opposing := LowestPrice(books[key].buys, Buy);
        return !isMarket && r.price > opposing;
      }
      return true;
    }

    /** The first price of a side's map. */
    static method LowestPrice(levels: map<int, int>, side: Side) returns (price: int)
      requires levels != map[]
      ensures levels.Keys != {} && price == Best(side, levels.Keys)
    {
      assert levels.Keys != {};
      price := Best(side, levels.Keys);
    }

    method CheckExposure(r: NewRequest, projectedOpen: Option<int>) returns (v: Verdict)
      requires Tracked()
      ensures v == ExposureVerdict(r, projectedOpen)
    {
      var allowed := SelfTradeAllows(r);
      if !allowed {
        return SelfTrade;
      }
      if limits.maxOpen > 0 && projectedOpen != None && projectedOpen.value > limits.maxOpen {
        return MaxOpenOrderQuantity;
      }
      var projected := Lookup(positions, r.symbolId) + if r.side == Buy then r.quantity else -r.quantity;
      if Abs(projected) > limits.maxPosition {
        return MaxPosition;
      }
      var gross := GrossExposure(positions, market);
      if Notional(r, market) + gross > limits.maxGross {
        return MaxGrossExposure;
      }
      return Accepted;
    }

    method CheckNewOrder(r: NewRequest, now: int) returns (v: Verdict)
      requires Valid()
      modifies this`orders, this`open, this`books, ids, limiter
      ensures Valid() && v == old(NewVerdict(r, now))
      ensures limiter.history == old(if v == KillSwitch || v == Disconnected then limiter.history else Noted(r.clientId, now))
      ensures v != Accepted ==> orders == old(orders) && open == old(open) && ids.View() == old(ids.View())
      ensures v == Accepted ==> ids.View() == old(ids.View()) + {r.clientOrderId} && r.clientOrderId !in old(orders)
      ensures v == Accepted ==> orders == if RestsTracked(r, limits) then old(orders)[r.clientOrderId := Working(r)] else old(orders)
      ensures v == Accepted ==> Shifted(old(open), open, r.symbolId, if RestsTracked(r, limits) then r.quantity else 0)
      ensures old(WithinOpen()) ==> WithinOpen()
    {
      v := CheckMessage(r, now);
      if v == Accepted {
        v := CheckCounted(r, now);
        if v == Accepted {
          AcceptNew(r);
        }
      }
    }

    method CheckMessage(r: NewRequest, now: int) returns (v: Verdict)
      requires Valid()
      modifies limiter`states, limiter`history
      ensures Valid() && v == old(MessageVerdict(r.clientId, now)) && CountedVerdict(r, now) == old(CountedVerdict(r, now))
      ensures limiter.history == old(if v == KillSwitch || v == Disconnected then limiter.history else Noted(r.clientId, now))
    {
      if killed {
        return KillSwitch;
      }
      if !connected && limits.rejectWhenDisconnected {
        return Disconnected;
      }
      var allowed := RateLimitAllows(r.clientId, now);
      return if allowed then Accepted else MessageRateLimit;
    }

    method CheckCounted(r: NewRequest, now: int) returns (v: Verdict)
      requires Valid()
      ensures v == CountedVerdict(r, now) && v != KillSwitch && v != Disconnected
      ensures v == Accepted ==> r.clientOrderId !in ids.View() && r.quantity > 0
      ensures v == Accepted && limits.maxOpen > 0 && ProjectedOpen(r) != None ==> ProjectedOpen(r).value <= limits.maxOpen
    {
      if r.quantity <= 0 {
        return BadQuantity;
      }
      if r.orderType == Limit && r.price <= 0 {
        return BadPrice;
      }
      var known := ids.Contains(r.clientOrderId);
      if known {
        return DuplicateId;
      }
      if r.quantity > limits.maxOrderQuantity {
        return MaxOrderQuantity;
      }
      v := CheckMarket(r, now);
      if v != Accepted {
        return;
      }
      v := CheckExposure(r, ProjectedOpen(r));
    }

    method AcceptNew(r: NewRequest)
      requires Valid() && r.clientOrderId !in ids.View() && r.quantity > 0
      requires limits.maxOpen > 0 && ProjectedOpen(r) != None ==> ProjectedOpen(r).value <= limits.maxOpen
      modifies this`orders, this`open, this`books, ids
      ensures Valid() && ids.View() == old(ids.View()) + {r.clientOrderId}
      ensures orders == if RestsTracked(r, limits) then old(orders)[r.clientOrderId := Working(r)] else old(orders)
      ensures Shifted(old(open), open, r.symbolId, if RestsTracked(r, limits) then r.quantity else 0)
      ensures old(WithinOpen()) ==> WithinOpen()
    {
      if RestsTracked(r, limits) {
        RegisterOrder(r);
        if old(WithinOpen()) { StaysWithin(limits, old(open), open, r.symbolId, r.quantity); }
      }
      ids.Insert(r.clientOrderId);
    }

    method CheckReplaceOrder(r: ReplaceRequest, now: int) returns (v: Verdict)
      requires Valid()
      modifies this`orders, this`open, this`books, ids, limiter
      ensures Valid() && v == old(ReplaceVerdict(r, now))
      ensures limiter.history == old(if FormVerdict(r) != Accepted then limiter.history else ReplaceNoted(r, now))
      ensures v != Accepted ==> orders == old(orders) && open == old(open) && ids.View() == old(ids.View())
      ensures v == Accepted ==> ids.View() == old(ids.View()) + {r.clientOrderId}
      ensures v == Accepted ==> Replaces(old(orders), orders, old(open), open, old(Named(r)), r)
      ensures old(WithinOpen()) ==> WithinOpen()
    {
      v := CheckReplaceForm(r, now);
      if v == Accepted {
        v := ReplaceNamed(r, now);
      }
    }

    /** Replaces the working order the request names, if there is one and the checks on its terms pass. */
    method ReplaceNamed(r: ReplaceRequest, now: int) returns (v: Verdict)
      requires Valid() && r.quantity > 0
      modifies this`orders, this`open, this`books, ids, limiter
      ensures Valid() && v == old(NamedVerdict(r, now))
      ensures limiter.history == old(ReplaceNoted(r, now))
      ensures v != Accepted ==> orders == old(orders) && open == old(open) && ids.View() == old(ids.View())
      ensures v == Accepted ==> ids.View() == old(ids.View()) + {r.clientOrderId}
      ensures v == Accepted ==> Replaces(old(orders), orders, old(open), open, old(Named(r)), r)
      ensures old(WithinOpen()) ==> WithinOpen()
    {
      if r.orderId !in exchangeToClient || exchangeToClient[r.orderId] !in orders {
        return UnknownId;
      }
      v := ReplaceKnown(exchangeToClient[r.orderId], r, now);
    }

    /** A replacement counts as a message of the client whose order it names. */
    ghost function ReplaceNoted(r: ReplaceRequest, now: int): map<nat, seq<int>>
      reads this, limiter
    {
      if Named(r) == None then limiter.history else Noted(orders[Named(r).value].client, now)
    }

    ghost function FormVerdict(r: ReplaceRequest): Verdict
      reads this, ids
    {
      if killed then KillSwitch
      else if !connected && limits.rejectWhenDisconnected then Disconnected
      else if r.quantity <= 0 then BadQuantity
      else if r.price <= 0 then BadPrice
      else if r.clientOrderId in ids.View() then DuplicateId
      else Accepted
    }

    method CheckReplaceForm(r: ReplaceRequest, ghost now: int) returns (v: Verdict)
      requires Valid()
      ensures Valid() && v == old(FormVerdict(r)) && NamedVerdict(r, now) == old(NamedVerdict(r, now))
      ensures ReplaceNoted(r, now) == old(ReplaceNoted(r, now))
    {
      if killed {
        return KillSwitch;
      }
      if !connected && limits.rejectWhenDisconnected {
        return Disconnected;
      }
      if r.quantity <= 0 {
        return BadQuantity;
      }
      if r.price <= 0 {
        return BadPrice;
      }
      var known := ids.Contains(r.clientOrderId);
      return if known then DuplicateId else Accepted;
    }

    method CheckTerms(r: NewRequest, projectedOpen: Option<int>, now: int) returns (v: Verdict)
      requires Valid()
      modifies limiter`states, limiter`history
      ensures Valid() && v == old(TermsVerdict(r, projectedOpen, now))
      ensures limiter.history == old(Noted(r.clientId, now))
      ensures v == Accepted && limits.maxOpen > 0 && projectedOpen != None ==> projectedOpen.value <= limits.maxOpen
    {
      var allowed := RateLimitAllows(r.clientId, now);
      if !allowed {
        return MessageRateLimit;
      }
      if r.quantity > limits.maxOrderQuantity {
        return MaxOrderQuantity;
      }
      v := CheckMarket(r, now);
      if v != Accepted {
        return;
      }
      v := CheckExposure(r, projectedOpen);
    }

    method RequoteWithin(k: nat, price: int, quantity: int)
      requires Tracked() && k in orders && quantity > 0
      requires limits.maxOpen > 0 ==> Lookup(open, orders[k].symbol) - orders[k].quantity + quantity <= limits.maxOpen
      modifies this`orders, this`open, this`books
      ensures Tracked() && orders == old(orders)[k := old(orders)[k].(price := price, quantity := quantity)]
      ensures Shifted(old(open), open, old(orders)[k].symbol, quantity - old(orders)[k].quantity)
      ensures old(WithinOpen()) ==> WithinOpen()
    {
      Requote(k, price, quantity);
      if old(WithinOpen()) { StaysWithin(limits, old(open), open, old(orders)[k].symbol, quantity - old(orders)[k].quantity); }
    }

    method AcceptReplace(k: nat, r: ReplaceRequest)
      requires Valid() && k in orders && r.quantity > 0
      requires limits.maxOpen > 0 ==> Lookup(open, orders[k].symbol) - orders[k].quantity + r.quantity <= limits.maxOpen
      modifies this`orders, this`open, this`books, ids
      ensures Valid() && ids.View() == old(ids.View()) + {r.clientOrderId}
      ensures orders == old(orders)[k := old(orders)[k].(price := r.price, quantity := r.quantity)]
      ensures Shifted(old(open), open, old(orders)[k].symbol, r.quantity - old(orders)[k].quantity)
      ensures old(WithinOpen()) ==> WithinOpen()
    {
      RequoteWithin(k, r.price, r.quantity);
      ids.Insert(r.clientOrderId);
    }

    /** Checks a replacement of a working order that is known, and makes it. */
    method ReplaceKnown(k: nat, r: ReplaceRequest, now: int) returns (v: Verdict)
      requires Valid() && k in orders && r.quantity > 0
      modifies this`orders, this`open, this`books, ids, limiter
      ensures Valid() && limiter.history == old(Noted(orders[k].client, now))
      ensures v == old(KnownVerdict(k, r, now))
      ensures v != Accepted ==> orders == old(orders) && open == old(open) && ids.View() == old(ids.View())
      ensures v == Accepted ==> ids.View() == old(ids.View()) + {r.clientOrderId}
      ensures v == Accepted ==> orders == old(orders)[k := old(orders)[k].(price := r.price, quantity := r.quantity)]
      ensures v == Accepted ==> Shifted(old(open), open, old(orders)[k].symbol, r.quantity - old(orders)[k].quantity)
      ensures old(WithinOpen()) ==> WithinOpen()
    {
      var o := orders[k];
      v := CheckTerms(Replacement(r, o), Some(Lookup(open, o.symbol) - o.quantity + r.quantity), now);
      if v == Accepted {
        AcceptReplace(k, r);
      }
    }
  }

  /** Changing one symbol's open quantity keeps every symbol within the limit exactly when the new quantity is. */
  lemma StaysWithin(limits: RiskLimits, before: map<nat, int>, after: map<nat, int>, symbol: nat, delta: int)
    requires Shifted(before, after, symbol, delta) && WithinLimit(limits, before)
    ensures WithinLimit(limits, after) == (limits.maxOpen > 0 ==> Lookup(after, symbol) <= limits.maxOpen)
  {
    if limits.maxOpen > 0 {
      forall s | s in after && s != symbol ensures after[s] <= limits.maxOpen {
        assert Lookup(after, s) == Lookup(before, s);
      }
    }
  }

  lemma ShrinksWithin(limits: RiskLimits, before: map<nat, int>, after: map<nat, int>)
    requires Shrunk(before, after) && WithinLimit(limits, before)
    ensures WithinLimit(limits, after)
  {
    if limits.maxOpen > 0 {
      forall s | s in after ensures after[s] <= limits.maxOpen {
        assert Lookup(after, s) <= Lookup(before, s);
      }
    }
  }

  lemma ReleaseTotals(m: Orders, t: Totals, k: nat, selfTrade: bool)
    requires Agree(m, t, selfTrade) && k in m
    ensures var t' := Released(t, m[k], m[k].quantity);
      Agree(m - {k}, t', selfTrade) && Shrunk(t.open, t'.open)
  {
    ReleaseAgrees(m, t, k, selfTrade);
  }

  lemma RequoteTotals(m: Orders, t: Totals, k: nat, o: WorkingOrder, selfTrade: bool)
    requires Agree(m, t, selfTrade) && k in m && o.quantity > 0 && o.symbol == m[k].symbol
    ensures var t' := Added(Released(t, m[k], m[k].quantity), o, o.quantity, selfTrade);
      && Agree(m[k := o], t', selfTrade)
      && Shifted(t.open, t'.open, m[k].symbol, o.quantity - m[k].quantity)
  {
    ReplaceAgrees(m, t, k, o, selfTrade);
    var t' := Added(Released(t, m[k], m[k].quantity), o, o.quantity, selfTrade);
    forall s: nat
      ensures Lookup(t'.open, s) == Lookup(t.open, s) + if s == m[k].symbol then o.quantity - m[k].quantity else 0
    {
      assert Value(t', OfSymbol(s)) == Total(m[k := o], OfSymbol(s)) && Value(t, OfSymbol(s)) == Total(m, OfSymbol(s));
      TotalReplace(m, k, o, OfSymbol(s));
    }
  }
}
