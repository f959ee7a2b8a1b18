/** What the risk gateway refuses, cause by cause: an order is accepted exactly when no cause against it
    is there, and a refusal names the first cause in the order of the checks. */
module GatewayVerdicts {
  import opened Types
  import opened Reports
  import opened RateLimits
  import opened WorkingOrders
  import opened RiskGateways

  /** Too many messages of this client: counted by a sliding window as the messages sent in the window
      that ends now, and by a fixed one as the messages since its window began. */
  ghost predicate TooMany(g: RiskGateway, client: nat, now: int)
    reads g, g.limiter
  {
    var sent := g.limiter.Sent(client) + [now];
    && g.limits.maxMessages > 0 && g.limits.rateWindow > 0
    && if g.limits.rateMode == SlidingWindow && NonDecreasing(sent)
       then SentWithin(sent, g.limits.rateWindow, now - g.limits.rateWindow + 1) > g.limits.maxMessages
       else !LastAllowed(g.limits.rateMode, sent, g.limits.rateWindow, g.limits.maxMessages)
  }

  lemma TooManyIs(g: RiskGateway, client: nat, now: int)
    ensures TooMany(g, client, now) <==> g.RateRefused(client, now)
  {
    var sent := g.limiter.Sent(client) + [now];
    if g.limits.rateWindow > 0 && NonDecreasing(sent) {
      SlidingExact(sent, g.limits.rateWindow, g.limits.maxMessages);
    }
  }

  /** The price an order is valued at: its own, or the reference price when it has none. */
  function ValuedAt(g: RiskGateway, r: NewRequest): int
    reads g
  {
    if r.orderType == Market && r.symbolId in g.market then g.market[r.symbolId].reference
    else if r.orderType == Market then 0
    else r.price
  }

  /** A working order of the same client on the other side that the order would trade with. */
  ghost predicate ReachesOwn(g: RiskGateway, r: NewRequest)
    reads g
  {
    exists k :: k in g.orders && Reaches(r, g.orders[k])
  }

  predicate Reaches(r: NewRequest, o: WorkingOrder) {
    && o.client == r.clientId && o.symbol == r.symbolId
    && ((r.side == Buy && o.side == Sell && (r.orderType == Market || r.price >= o.price))
        || (r.side == Sell && o.side == Buy && (r.orderType == Market || r.price <= o.price)))
  }

  /** Adding so much would take a symbol's open quantity over its limit. */
  predicate OverOpen(g: RiskGateway, symbol: nat, added: int)
    reads g
  {
    g.limits.maxOpen > 0 && Lookup(g.open, symbol) + added > g.limits.maxOpen
  }

  /** The cause a refusal names is there against an order; `rests` tells whether it adds `added` to open quantity. */
  ghost predicate Against(g: RiskGateway, r: NewRequest, rests: bool, added: int, now: int, v: Verdict)
    reads g, g.limiter
  {
    match v
    case MessageRateLimit => TooMany(g, r.clientId, now)
    case MaxOrderQuantity => r.quantity > g.limits.maxOrderQuantity
    case StaleMarketData =>
      r.symbolId !in g.market || (g.limits.staleAfter > 0 && now - g.market[r.symbolId].timestamp > g.limits.staleAfter)
    case PriceBand => r.orderType == Limit && r.symbolId in g.market
      && (r.price > g.market[r.symbolId].reference + g.limits.priceBand || r.price < g.market[r.symbolId].reference - g.limits.priceBand)
    case MaxNotional => Abs(ValuedAt(g, r) * r.quantity) > g.limits.maxNotional
    case SelfTrade => g.limits.selfTrade && !r.postOnly && ReachesOwn(g, r)
    case MaxOpenOrderQuantity => rests && OverOpen(g, r.symbolId, added)
    case MaxPosition => Abs(Lookup(g.positions, r.symbolId) + if r.side == Buy then r.quantity else -r.quantity) > g.limits.maxPosition
    case MaxGrossExposure => Abs(ValuedAt(g, r) * r.quantity) + Gross(g.positions, g.market) > g.limits.maxGross
    case Accepted => true
    case _ => false
  }

  ghost predicate AgainstNew(g: RiskGateway, r: NewRequest, now: int, v: Verdict)
    reads g, g.ids, g.limiter
  {
    match v
    case KillSwitch => g.killed
    case Disconnected => !g.connected && g.limits.rejectWhenDisconnected
    case BadQuantity => r.quantity <= 0
    case BadPrice => r.orderType == Limit && r.price <= 0
    case DuplicateId => r.clientOrderId in g.ids.View()
    case _ => Against(g, r, r.orderType == Limit && r.tif == Gtc, r.quantity, now, v)
  }

  /** The order in which a new order's causes are looked for; acceptance comes last. */
  function NewRank(v: Verdict): nat {
    match v
    case KillSwitch => 0 case Disconnected => 1 case MessageRateLimit => 2 case BadQuantity => 3 case BadPrice => 4
    case DuplicateId => 5 case MaxOrderQuantity => 6 case StaleMarketData => 7 case PriceBand => 8 case MaxNotional => 9
    case SelfTrade => 10 case MaxOpenOrderQuantity => 11 case MaxPosition => 12 case MaxGrossExposure => 13
    case Accepted => 14 case UnknownId => 15
  }

  lemma ReachesOwnIs(g: RiskGateway, r: NewRequest)
    ensures ReachesOwn(g, r)
      <==> (ValidSide(r.side) && OwnOpposite(g.orders, r.clientId, r.symbolId, r.side, r.orderType == Market, r.price))
  {
    forall k | k in g.orders
      ensures Reaches(r, g.orders[k])
        <==> (ValidSide(r.side) && g.orders[k].client == r.clientId && g.orders[k].symbol == r.symbolId
              && g.orders[k].side == Opposite(r.side) && Crosses(r.side, r.orderType == Market, r.price, g.orders[k]))
    {
    }
  }

  /** The verdict on an order's terms is the first cause there is against them. */
  lemma TermsFirst(g: RiskGateway, r: NewRequest, rests: bool, added: int, now: int)
    ensures var v := g.TermsVerdict(r, if rests then Some(Lookup(g.open, r.symbolId) + added) else None, now);
      Against(g, r, rests, added, now, v) && forall w :: Against(g, r, rests, added, now, w) ==> NewRank(v) <= NewRank(w)
  {
    TooManyIs(g, r.clientId, now);
    ReachesOwnIs(g, r);
  }

  /** A new order is answered with the first cause there is against it, and accepted if there is none. */
  lemma NewFirst(g: RiskGateway, r: NewRequest, now: int)
    ensures var v := g.NewVerdict(r, now);
      AgainstNew(g, r, now, v) && forall w :: AgainstNew(g, r, now, w) ==> NewRank(v) <= NewRank(w)
  {
    TooManyIs(g, r.clientId, now);
    TermsFirst(g, r, r.orderType == Limit && r.tif == Gtc, r.quantity, now);
  }

  /** The cause a refusal names is there against a replacement. */
  ghost predicate AgainstReplace(g: RiskGateway, r: ReplaceRequest, now: int, v: Verdict)
    reads g, g.ids, g.limiter
  {
    match v
    case KillSwitch => g.killed
    case Disconnected => !g.connected && g.limits.rejectWhenDisconnected
    case BadQuantity => r.quantity <= 0
    case BadPrice => r.price <= 0
    case DuplicateId => r.clientOrderId in g.ids.View()
    case UnknownId => !NamesWorking(g, r.orderId)
    case _ => NamesWorking(g, r.orderId) && var o := g.orders[g.exchangeToClient[r.orderId]];
      Against(g, Asked(r, o), true, r.quantity - o.quantity, now, v)
  }

  predicate NamesWorking(g: RiskGateway, exchangeId: nat)
    reads g
  {
    exchangeId in g.exchangeToClient && g.exchangeToClient[exchangeId] in g.orders
  }

  /** A replacement's form and the order it names are looked at before the client's message counts. */
  function ReplaceRank(v: Verdict): nat {
    match v
    case KillSwitch => 0 case Disconnected => 1 case BadQuantity => 2 case BadPrice => 3 case DuplicateId => 4 case UnknownId => 5
    case _ => 4 + NewRank(v)
  }

  /** The order a replacement asks for. */
  function Asked(r: ReplaceRequest, o: WorkingOrder): NewRequest {
    NewRequest(r.clientOrderId, o.symbol, o.side, Limit, r.price, r.quantity, r.timestamp, o.client, Gtc, false)
  }

  lemma KnownFirst(g: RiskGateway, r: ReplaceRequest, now: int)
    requires NamesWorking(g, r.orderId)
    ensures var v, o := g.NamedVerdict(r, now), g.orders[g.exchangeToClient[r.orderId]];
      && Against(g, Asked(r, o), true, r.quantity - o.quantity, now, v)
      && forall w :: Against(g, Asked(r, o), true, r.quantity - o.quantity, now, w) ==> NewRank(v) <= NewRank(w)
  {
    var o := g.orders[g.exchangeToClient[r.orderId]];
    TermsFirst(g, Asked(r, o), true, r.quantity - o.quantity, now);
  }

  /** Once its form is right, the first cause is that the order is unknown, or lies in its terms. */
  lemma NamedFirst(g: RiskGateway, r: ReplaceRequest, now: int)
    ensures var v := g.NamedVerdict(r, now);
      && AgainstReplace(g, r, now, v) && ReplaceRank(v) >= 5
      && forall w :: AgainstReplace(g, r, now, w) && ReplaceRank(w) >= 5 ==> ReplaceRank(v) <= ReplaceRank(w)
  {
    if NamesWorking(g, r.orderId) {
      KnownFirst(g, r, now);
    }
  }

  /** A replacement is answered with the first cause there is against it, and accepted if there is none. */
  lemma ReplaceFirst(g: RiskGateway, r: ReplaceRequest, now: int)
    ensures var v := g.ReplaceVerdict(r, now);
      AgainstReplace(g, r, now, v) && forall w :: AgainstReplace(g, r, now, w) ==> ReplaceRank(v) <= ReplaceRank(w)
  {
    NamedFirst(g, r, now);
  }
}
