/** Laws of whole requests and whole runs of the matching contract. */
module ExchangeLaws {
  import opened Types
  import opened Ranking
  import opened Reports
  import opened Exchanges
  import opened MatchingLaws

  // ----- fill-or-kill

  lemma {:induction false} DepthConcat(a: seq<Offer>, b: seq<Offer>, side: Side, orderType: OrderType, limit: int)
    requires forall i :: 0 <= i < |a| ==> Acceptable(a[i], side, orderType, limit)
    ensures Depth(a + b, side, orderType, limit) == Depth(a, side, orderType, limit) + Depth(b, side, orderType, limit)
  {
    if a == [] {
      assert a + b == b;
    } else {
      assert (a + b)[0] == a[0] && (a + b)[1..] == a[1..] + b;
      DepthConcat(a[1..], b, side, orderType, limit);
    }
  }

  /** The quantity of a level is the depth of its queue. */
  lemma {:induction false} LevelDepth(states: States, q: seq<nat>, price: int, side: Side, orderType: OrderType,
                                      limit: int)
    requires Executable(side, orderType, limit, price)
    ensures LevelQuantity(states, q) == Depth(QueueOffers(states, q, price), side, orderType, limit)
  {
    if q != [] {
      var init, last := q[..|q| - 1], q[|q| - 1];
      LevelDepth(states, init, price, side, orderType, limit);
      var o := Offer(last, price, if last in states then Remaining(states[last]) else 0);
      assert QueueOffers(states, q, price) == QueueOffers(states, init, price) + [o];
      DepthConcat(QueueOffers(states, init, price), [o], side, orderType, limit);
    }
  }

  /** The level-by-level walk accepts exactly when the depth covers what is required. */
  lemma {:induction false} WalkFindsDepth(states: States, ladder: IdLadder, bookSide: Side, ps: seq<int>, side: Side,
                                          orderType: OrderType, limit: int, required: int)
    requires LadderOk(ladder, states, bookSide) && forall i :: 0 <= i < |ps| ==> ps[i] in ladder
    requires required > 0
    ensures CanFillFrom(states, ladder, ps, side, orderType, limit, required)
        <==> Depth(OffersFrom(states, ladder, ps), side, orderType, limit) >= required
    decreases |ps|
  {
    if ps != [] {
      var q := QueueAt(ladder, ps[0]);
      var front, tail := QueueOffers(states, q, ps[0]), OffersFrom(states, ladder, ps[1..]);
      OffersPositiveFrom(states, ladder, bookSide, ps[1..]);
      DepthNonNegative(tail, side, orderType, limit);
      if Executable(side, orderType, limit, ps[0]) {
        LevelDepth(states, q, ps[0], side, orderType, limit);
        DepthConcat(front, tail, side, orderType, limit);
        if LevelQuantity(states, q) < required {
          WalkFindsDepth(states, ladder, bookSide, ps[1..], side, orderType, limit,
                         required - LevelQuantity(states, q));
        }
      } else {
        assert front != [] && (front + tail)[0] == front[0];
      }
    }
  }

  /** Accepting an order changes nothing about what the other side offers it. */
  lemma OffersBeforeAccepting(x: Exchange, r: NewRequest)
    requires Ok(x) && Malformed(x, r) == NoReason
    ensures var opp := Opposite(r.side);
      Offers(Accepted(x, r), opp) == OffersFrom(x.states, On(x, opp), Ranked(opp, On(x, opp).Keys))
  {
    var x1, opp := Accepted(x, r), Opposite(r.side);
    var ps := Ranked(opp, On(x, opp).Keys);
    RankedLists(opp, On(x, opp).Keys);
    forall i, j | 0 <= i < |ps| && 0 <= j < |QueueAt(On(x, opp), ps[i])|
      ensures var k := QueueAt(On(x, opp), ps[i])[j];
        k in x.states && k in x1.states && Remaining(x.states[k]) == Remaining(x1.states[k])
    {
      assert Rests(x.states, QueueAt(On(x, opp), ps[i])[j], opp, ps[i]);
    }
    OffersAgree(x.states, x1.states, On(x, opp), On(x1, opp), ps);
  }

  /** What a matching leaves of the wanted quantity is what the offers could not give. */
  lemma MatchLeaves(x: Exchange, id: nat, wanted: int, ts: int)
    requires Taking(x, id, wanted)
    ensures var st := x.states[id]; var os := Offers(x, Opposite(st.side));
      Match(x, id, wanted, ts).1 == wanted - Min(wanted, Depth(os, st.side, st.orderType, st.limit))
  {
    var st := x.states[id];
    MatchFollowsPriority(x, id, wanted, ts);
    OffersPositive(x, Opposite(st.side));
    FillsAreShortestPrefix(Offers(x, Opposite(st.side)), st.side, st.orderType, st.limit, wanted);
  }

  lemma AcceptedState(x: Exchange, r: NewRequest)
    ensures x.nextId in Accepted(x, r).states && Accepted(x, r).states[x.nextId] == NewState(x, r)
  {
  }

  /** An order can be filled completely exactly when matching it would leave nothing. */
  lemma FillableIffFilled(x: Exchange, r: NewRequest)
    requires Ok(x) && Malformed(x, r) == NoReason
    ensures Taking(Accepted(x, r), x.nextId, r.quantity)
    ensures CanFullyFill(x, r) <==> Match(Accepted(x, r), x.nextId, r.quantity, r.timestamp).1 == 0
  {
    var x1, opp := Accepted(x, r), Opposite(r.side);
    AcceptedTakes(x, r);
    AcceptedState(x, r);
    MatchLeaves(x1, x.nextId, r.quantity, r.timestamp);
    OffersBeforeAccepting(x, r);
    RankedLists(opp, On(x, opp).Keys);
    WalkFindsDepth(x.states, On(x, opp), opp, Ranked(opp, On(x, opp).Keys), r.side, r.orderType, r.price, r.quantity);
  }

  lemma AcceptedFills(x: Exchange, r: NewRequest, canRest: bool)
    requires Ok(x) && Malformed(x, r) == NoReason && CanFullyFill(x, r)
    ensures var x' := Accept(x, r, canRest).0; var id := x.nextId;
      id in x'.states && x'.states[id].filled == r.quantity && !InBook(x', id)
  {
    FillableIffFilled(x, r);
    var id := x.nextId;
    var x1 := x.(states := x.states[id := NewState(x, r)], nextId := id + 1);
    MatchKeeps(x1, id, r.quantity, r.timestamp);
    assert Accept(x, r, canRest).0 == Match(x1, id, r.quantity, r.timestamp).0;
  }

  /** A fill-or-kill order is either refused with the book and every order state unchanged, or
      filled completely, with nothing of it resting. */
  lemma FillOrKill(x: Exchange, r: NewRequest, canRest: bool)
    requires Ok(x) && r.tif == Fok
    ensures var (x', reports) := SubmitOrder(x, r, canRest);
      || (|reports| == 1 && reports[0].execType == ExecRejected && x'.(seen := x.seen) == x)
      || (x.nextId in x'.states && x'.states[x.nextId].filled == r.quantity && !InBook(x', x.nextId) && r.quantity > 0)
  {
    var x1 := Reserved(x, r.clientOrderId);
    if Malformed(x, r) == NoReason && CanReserve(x, r.clientOrderId) && Refused(x1, r) == NoReason {
      ReservedOk(x, r.clientOrderId);
      AcceptedFills(x1, r, canRest);
    }
  }

  lemma ReservedOk(x: Exchange, clientOrderId: nat)
    requires Ok(x)
    ensures Ok(Reserved(x, clientOrderId))
  {
  }

  // ----- every request keeps the exchange well formed and uncrossed

  lemma UncrossedShrinks(x: Exchange, x': Exchange)
    requires Uncrossed(x) && x'.bids.Keys <= x.bids.Keys && x'.asks.Keys <= x.asks.Keys
    ensures Uncrossed(x')
  {
    forall b, a | b in x'.bids && a in x'.asks ensures b < a {
      assert b in x.bids.Keys && a in x.asks.Keys;
    }
  }

  /** Resting what no longer crosses keeps the book uncrossed. */
  lemma RestUncrossed(x: Exchange, id: nat, remaining: int)
    requires Taking(x, id, remaining) && remaining > 0 && x.states[id].orderType == Limit
    requires Uncrossed(x) && !CanTake(x, id, remaining)
    ensures Uncrossed(Rest(x, id))
  {
    var st, opp := x.states[id], Opposite(x.states[id].side);
    forall p | p in On(x, opp) ensures !Executable(st.side, Limit, st.limit, p) {
      assert On(x, opp) != map[];
      assert BestIn(opp, On(x, opp).Keys, Best(opp, On(x, opp).Keys));
    }
    var x' := Rest(x, id);
    forall b, a | b in x'.bids && a in x'.asks ensures b < a {
      assert b in x.bids || (st.side == Buy && b == st.limit);
      assert a in x.asks || (st.side == Sell && a == st.limit);
    }
  }

  ghost predicate Good(x: Exchange) {
    Ok(x) && Uncrossed(x)
  }

  lemma SettleGood(x: Exchange, id: nat, remaining: int, canRest: bool, ts: int)
    requires Taking(x, id, remaining) && remaining > 0 && x.states[id].orderType == Limit
    requires Uncrossed(x) && !CanTake(x, id, remaining)
    ensures Good(Settle(x, id, canRest, ts).0)
  {
    RestKeeps(x, id, remaining);
    RestUncrossed(x, id, remaining);
    SetStatusKeeps(x, id, Rejected);
  }

  lemma StatusTakes(x: Exchange, id: nat, remaining: int, status: Status)
    requires Taking(x, id, remaining)
    ensures Taking(SetStatus(x, id, status), id, remaining)
    ensures CanTake(SetStatus(x, id, status), id, remaining) == CanTake(x, id, remaining)
  {
    SetStatusKeeps(x, id, status);
  }

  lemma AcceptGood(x: Exchange, r: NewRequest, canRest: bool)
    requires Good(x) && Malformed(x, r) == NoReason
    ensures Good(Accept(x, r, canRest).0)
  {
    AcceptedTakes(x, r);
    var id := x.nextId;
    var x1 := x.(states := x.states[id := NewState(x, r)], nextId := id + 1);
    var (x2, remaining, trades) := Match(x1, id, r.quantity, r.timestamp);
    MatchKeeps(x1, id, r.quantity, r.timestamp);
    UncrossedShrinks(x, x2);
    if remaining > 0 && r.orderType == Limit && r.tif == Gtc {
      var x3 := if x2.states[id].filled > 0 then SetStatus(x2, id, PartiallyFilled) else x2;
      StatusTakes(x2, id, remaining, PartiallyFilled);
      SettleGood(x3, id, remaining, canRest, r.timestamp);
    } else if remaining > 0 {
      SetStatusKeeps(x2, id, Canceled);
    }
  }

  lemma AmendGood(x: Exchange, r: ReplaceRequest, canRest: bool)
    requires Good(x) && InBook(x, r.orderId) && r.price > 0 && r.quantity > 0
    ensures Good(Amend(x, r, canRest).0)
  {
    WithdrawnTakes(x, r);
    RestsIn(x, r.orderId);
    var id := r.orderId;
    var x1 := Withdrawn(x, r);
    var (x2, remaining, trades) := Match(x1, id, r.quantity, r.timestamp);
    MatchKeeps(x1, id, r.quantity, r.timestamp);
    UncrossedShrinks(x, x2);
    if remaining > 0 {
      var x3 := if x2.states[id].filled > 0 && x2.states[id].status != Replaced then SetStatus(x2, id, PartiallyFilled) else x2;
      StatusTakes(x2, id, remaining, PartiallyFilled);
      SettleGood(x3, id, remaining, canRest, r.timestamp);
    }
  }

  /** Safety of every request: the book stays uncrossed, and every resting order keeps a live Limit
      state on its own side and price. */
  lemma HandleGood(x: Exchange, request: Request, canRest: bool)
    requires Good(x)
    ensures Good(Handle(x, request, canRest).0) && Handle(x, request, canRest).0.symbol == x.symbol
  {
    match request
    case Submit(r) =>
      var x1 := Reserved(x, r.clientOrderId);
      ReservedOk(x, r.clientOrderId);
      if Malformed(x, r) == NoReason && CanReserve(x, r.clientOrderId) && Refused(x1, r) == NoReason {
        AcceptGood(x1, r, canRest);
        AcceptSymbol(x1, r, canRest);
      }
    case Cancel(r) =>
      var x1 := Reserved(x, r.clientOrderId);
      ReservedOk(x, r.clientOrderId);
      if CanReserve(x, r.clientOrderId) && InBook(x1, r.orderId) {
        UnrestKeeps(x1, r.orderId);
        SetStatusKeeps(Unrest(x1, r.orderId), r.orderId, Canceled);
        UncrossedShrinks(x1, Unrest(x1, r.orderId));
      }
    case Replace(r) =>
      var x1 := Reserved(x, r.clientOrderId);
      ReservedOk(x, r.clientOrderId);
      if InBook(x1, r.orderId) && r.price > 0 && r.quantity > 0 {
        AmendGood(x1, r, canRest);
        AmendSymbol(x1, r, canRest);
      }
  }

  lemma AcceptSymbol(x: Exchange, r: NewRequest, canRest: bool)
    requires Ok(x) && Malformed(x, r) == NoReason
    ensures Accept(x, r, canRest).0.symbol == x.symbol
  {
    AcceptedTakes(x, r);
    MatchKeeps(x.(states := x.states[x.nextId := NewState(x, r)], nextId := x.nextId + 1), x.nextId, r.quantity,
               r.timestamp);
  }

  lemma AmendSymbol(x: Exchange, r: ReplaceRequest, canRest: bool)
    requires Ok(x) && InBook(x, r.orderId) && r.price > 0 && r.quantity > 0
    ensures Amend(x, r, canRest).0.symbol == x.symbol
  {
    WithdrawnTakes(x, r);
    MatchKeeps(Withdrawn(x, r), r.orderId, r.quantity, r.timestamp);
  }

  // ----- what never rests

  lemma SameInBook(x: Exchange, x': Exchange, k: nat)
    requires x'.bids == x.bids && x'.asks == x.asks
    requires k in x.states && k in x'.states && x'.states[k].side == x.states[k].side
    requires x'.states[k].limit == x.states[k].limit
    ensures InBook(x', k) <==> InBook(x, k)
  {
  }

  /** Market, immediate-or-cancel and fill-or-kill orders never rest: afterwards only orders rest
      that rested before. */
  lemma ImmediateNeverRests(x: Exchange, r: NewRequest, canRest: bool)
    requires Ok(x) && (r.orderType != Limit || r.tif != Gtc)
    ensures forall k :: InBook(SubmitOrder(x, r, canRest).0, k) ==> InBook(x, k)
  {
    var x1 := Reserved(x, r.clientOrderId);
    if Malformed(x, r) == NoReason && CanReserve(x, r.clientOrderId) && Refused(x1, r) == NoReason {
      ReservedOk(x, r.clientOrderId);
      AcceptedNeverRests(x1, r, canRest);
    }
  }

  lemma AcceptedNeverRests(x: Exchange, r: NewRequest, canRest: bool)
    requires Ok(x) && Malformed(x, r) == NoReason && (r.orderType != Limit || r.tif != Gtc)
    ensures forall k :: InBook(Accept(x, r, canRest).0, k) ==> InBook(x, k)
  {
    AcceptedTakes(x, r);
    var id := x.nextId;
    var x2 := Accepted(x, r);
    var (x3, remaining, trades) := Match(x2, id, r.quantity, r.timestamp);
    MatchKeeps(x2, id, r.quantity, r.timestamp);
    NeverRests(x, x2, x3, r, id, remaining, canRest);
  }

  lemma NeverRests(x: Exchange, x2: Exchange, x3: Exchange, r: NewRequest, id: nat, remaining: int, canRest: bool)
    requires Ok(x) && x2 == Accepted(x, r) && id == x.nextId && (r.orderType != Limit || r.tif != Gtc)
    requires Ok(x3) && id in x3.states && forall k :: InBook(x3, k) ==> InBook(x2, k) && k != id
    ensures forall k :: InBook(FinishNew(x3, id, remaining, r, canRest).0, k) ==> InBook(x, k)
  {
    SetStatusKeeps(x3, id, Canceled);
    forall k | InBook(FinishNew(x3, id, remaining, r, canRest).0, k) ensures InBook(x, k) {
      assert InBook(x3, k);
      SameInBook(x, x2, k);
    }
  }

  // ----- self-trade prevention

  lemma {:induction false} OfferRests(states: States, ladder: IdLadder, side: Side, ps: seq<int>, i: nat)
    requires LadderOk(ladder, states, side) && i < |OffersFrom(states, ladder, ps)|
    requires forall j :: 0 <= j < |ps| ==> ps[j] in ladder
    ensures var o := OffersFrom(states, ladder, ps)[i];
      Rests(states, o.id, side, o.price) && o.id in QueueAt(ladder, o.price)
  {
    var q := QueueAt(ladder, ps[0]);
    if i < |q| {
      assert Rests(states, q[i], side, ps[0]);
    } else {
      OfferRests(states, ladder, side, ps[1..], i - |q|);
    }
  }

  /** Two reports of one trade: equal positive quantity and price, resting order first, and never
      two orders of the same client. */
  predicate CleanPair(states: States, a: Report, b: Report) {
    && a.execType == Trade && b.execType == Trade && a.lastQuantity == b.lastQuantity > 0
    && a.lastPrice == b.lastPrice > 0
    && a.orderId in states && b.orderId in states && a.orderId != b.orderId
    && states[a.orderId].side == Opposite(states[b.orderId].side)
    && (states[a.orderId].clientId != states[b.orderId].clientId || states[b.orderId].clientId == 0)
  }

  /** After its opening report a request emits clean trade pairs, then at most one closing report. */
  predicate CleanTrades(states: States, reports: seq<Report>, pairs: nat) {
    && 1 + 2 * pairs <= |reports| <= 2 + 2 * pairs
    && (forall k :: 0 <= k < pairs ==> CleanPair(states, reports[1 + 2 * k], reports[2 + 2 * k]))
    && reports[0].execType != Trade && (|reports| == 2 + 2 * pairs ==> reports[|reports| - 1].execType != Trade)
  }

  ghost predicate NoOwnTrade(x: Exchange, id: nat)
    requires id in x.states
  {
    var st := x.states[id];
    !WouldSelfTrade(x, st.side, st.orderType, st.limit, st.clientId, id) || !Crosses(x, st.side, st.orderType, st.limit)
  }

  /** Who an order trades with: an opposing resting order, never one of its own client's. */
  lemma FillIsFair(x: Exchange, id: nat, remaining: int, k: nat)
    requires Taking(x, id, remaining) && NoOwnTrade(x, id)
    requires var st := x.states[id];
      k < |Fills(Offers(x, Opposite(st.side)), st.side, st.orderType, st.limit, remaining)|
    ensures var st := x.states[id];
      var t := Fills(Offers(x, Opposite(st.side)), st.side, st.orderType, st.limit, remaining)[k];
      && t.quantity > 0 && t.price > 0 && t.id in x.states && t.id != id && x.states[t.id].side == Opposite(st.side)
      && (x.states[t.id].clientId != st.clientId || st.clientId == 0)
  {
    var st := x.states[id];
    var opp := Opposite(st.side);
    var os := Offers(x, opp);
    OffersPositive(x, opp);
    FillsAreShortestPrefix(os, st.side, st.orderType, st.limit, remaining);
    RankedLists(opp, On(x, opp).Keys);
    OfferRests(x.states, On(x, opp), opp, Ranked(opp, On(x, opp).Keys), k);
    assert InBook(x, os[k].id);
    if !CanTake(x, id, remaining) { NoFrontOffer(x, id, remaining); }
    if st.clientId != 0 && x.states[os[k].id].clientId == st.clientId {
      assert SelfTradeWith(x, os[k].id, st.side, st.orderType, st.limit, st.clientId, id);
    }
  }

  /** One pair of a matching's trades joins orders of different clients. */
  lemma TradeIsClean(x: Exchange, id: nat, remaining: int, states': States, t: Taken, k: nat, a: Report, b: Report)
    requires Taking(x, id, remaining) && NoOwnTrade(x, id)
    requires var st := x.states[id];
      var fills := Fills(Offers(x, Opposite(st.side)), st.side, st.orderType, st.limit, remaining);
      k < |fills| && t == fills[k]
    requires TradeOf(a, t, t.id) && TradeOf(b, t, id)
    requires states'.Keys == x.states.Keys && forall k :: k in x.states ==> SameTerms(states'[k], x.states[k])
    ensures CleanPair(states', a, b)
  {
    FillIsFair(x, id, remaining, k);
    assert SameTerms(states'[t.id], x.states[t.id]) && SameTerms(states'[id], x.states[id]);
  }

  /** The trades of a matching, pair by pair, join orders of different clients. */
  lemma TradesAreClean(x: Exchange, id: nat, remaining: int, states': States, reports: seq<Report>, fills: seq<Taken>)
    requires Taking(x, id, remaining) && NoOwnTrade(x, id) && TradesMatch(reports, fills, id)
    requires var st := x.states[id];
      fills == Fills(Offers(x, Opposite(st.side)), st.side, st.orderType, st.limit, remaining)
    requires states'.Keys == x.states.Keys && forall k :: k in x.states ==> SameTerms(states'[k], x.states[k])
    ensures PairsClean(states', reports)
  {
    assert |reports| / 2 == |fills|;
    forall k | 0 <= k < |fills| ensures CleanPair(states', reports[2 * k], reports[2 * k + 1]) {
      TradeIsClean(x, id, remaining, states', fills[k], k, reports[2 * k], reports[2 * k + 1]);
    }
  }

  predicate PairsClean(states: States, reports: seq<Report>) {
    |reports| % 2 == 0 && forall k :: 0 <= k < |reports| / 2 ==> CleanPair(states, reports[2 * k], reports[2 * k + 1])
  }

  /** An order that would not trade with its own client never does. */
  lemma MatchIsClean(x: Exchange, id: nat, remaining: int, ts: int)
    requires Taking(x, id, remaining) && NoOwnTrade(x, id)
    ensures PairsClean(Match(x, id, remaining, ts).0.states, Match(x, id, remaining, ts).2)
  {
    MatchFollowsPriority(x, id, remaining, ts);
    MatchTerms(x, id, remaining, ts);
    var st := x.states[id];
    var fills := Fills(Offers(x, Opposite(st.side)), st.side, st.orderType, st.limit, remaining);
    TradesAreClean(x, id, remaining, Match(x, id, remaining, ts).0.states, Match(x, id, remaining, ts).2, fills);
  }

  lemma MatchTerms(x: Exchange, id: nat, remaining: int, ts: int)
    requires Taking(x, id, remaining)
    ensures var x' := Match(x, id, remaining, ts).0;
      x'.states.Keys == x.states.Keys && forall k :: k in x.states ==> SameTerms(x'.states[k], x.states[k])
  {
    MatchKeeps(x, id, remaining, ts);
  }

  /** Self-trade prevention over a whole request: a request that changes anything emits only clean
      trade pairs between its opening report and at most one closing report. */
  lemma RequestIsClean(x: Exchange, request: Request, canRest: bool)
    requires Good(x)
    ensures var (x', reports) := Handle(x, request, canRest);
      reports != [] && CleanTrades(x'.states, reports, (|reports| - 1) / 2)
  {
    match request
    case Submit(r) => SubmitIsClean(x, r, canRest);
    case Cancel(r) => CancelIsClean(x, r);
    case Replace(r) => ReplaceIsClean(x, r, canRest);
  }

  /** A cancel answers with one report, which is no trade. */
  lemma CancelIsClean(x: Exchange, r: CancelRequest)
    requires Good(x)
    ensures var (x', reports) := CancelOrder(x, r); |reports| == 1 && reports[0].execType != Trade
  {
  }

  lemma SubmitIsClean(x: Exchange, r: NewRequest, canRest: bool)
    requires Ok(x)
    ensures var (x', reports) := SubmitOrder(x, r, canRest);
      reports != [] && CleanTrades(x'.states, reports, (|reports| - 1) / 2)
  {
    var x1 := Reserved(x, r.clientOrderId);
    ReservedOk(x, r.clientOrderId);
    if Malformed(x, r) == NoReason && CanReserve(x, r.clientOrderId) && Refused(x1, r) == NoReason {
      AcceptIsClean(x1, r, canRest);
    }
  }

  lemma ReplaceIsClean(x: Exchange, r: ReplaceRequest, canRest: bool)
    requires Ok(x)
    ensures var (x', reports) := ReplaceOrder(x, r, canRest);
      reports != [] && CleanTrades(x'.states, reports, (|reports| - 1) / 2)
  {
    var x1 := Reserved(x, r.clientOrderId);
    ReservedOk(x, r.clientOrderId);
    if InBook(x1, r.orderId) && r.price > 0 && r.quantity > 0 {
      var st := x1.states[r.orderId];
      if !WouldSelfTrade(x1, st.side, st.orderType, r.price, st.clientId, st.orderId) {
        AmendIsClean(x1, r, canRest);
      }
    }
  }

  /** The trades of a request, framed by its opening and closing reports. */
  lemma Framed(states: States, states': States, first: Report, trades: seq<Report>, last: seq<Report>)
    requires first.execType != Trade && |last| <= 1 && (last != [] ==> last[0].execType != Trade)
    requires PairsClean(states, trades)
    requires states'.Keys == states.Keys && forall k :: k in states ==> SameTerms(states'[k], states[k])
    ensures CleanTrades(states', [first] + trades + last, (|[first] + trades + last| - 1) / 2)
  {
    var reports := [first] + trades + last;
    forall k | 0 <= k < |trades| / 2 ensures CleanPair(states', reports[1 + 2 * k], reports[2 + 2 * k]) {
      assert reports[1 + 2 * k] == trades[2 * k] && reports[2 + 2 * k] == trades[2 * k + 1];
      assert CleanPair(states, trades[2 * k], trades[2 * k + 1]);
    }
  }

  ghost function Accepted(x: Exchange, r: NewRequest): Exchange {
    x.(states := x.states[x.nextId := NewState(x, r)], nextId := x.nextId + 1)
  }

  /** Closing a request adds at most one report, not a trade, and keeps every order's terms. */
  predicate Closes(x: Exchange, x': Exchange, closing: seq<Report>) {
    && |closing| <= 1 && (closing != [] ==> closing[0].execType != Trade)
    && x'.states.Keys == x.states.Keys && forall k :: k in x.states ==> SameTerms(x'.states[k], x.states[k])
  }

  lemma FinishCloses(x: Exchange, id: nat, remaining: int, canRest: bool)
    requires id in x.states
    ensures forall r :: var (x', closing) := FinishNew(x, id, remaining, r, canRest); Closes(x, x', closing)
    ensures forall r :: var (x', closing) := FinishAmend(x, id, remaining, r, canRest); Closes(x, x', closing)
  {
  }

  lemma AcceptIsClean(x: Exchange, r: NewRequest, canRest: bool)
    requires Ok(x) && Malformed(x, r) == NoReason && Refused(x, r) == NoReason
    ensures var (x', reports) := Accept(x, r, canRest);
      reports != [] && CleanTrades(x'.states, reports, (|reports| - 1) / 2)
  {
    AcceptedTakes(x, r);
    AcceptedIsFair(x, r);
    MatchIsClean(Accepted(x, r), x.nextId, r.quantity, r.timestamp);
    MatchTerms(Accepted(x, r), x.nextId, r.quantity, r.timestamp);
    var (x2, remaining, trades) := Match(Accepted(x, r), x.nextId, r.quantity, r.timestamp);
    FinishCloses(x2, x.nextId, remaining, canRest);
    var (x3, closing) := FinishNew(x2, x.nextId, remaining, r, canRest);
    Framed(x2.states, x3.states, MakeReport(NewState(x, r), ExecNew, 0, 0, r.timestamp, NoReason), trades, closing);
  }

  lemma AcceptedIsFair(x: Exchange, r: NewRequest)
    requires Ok(x) && Malformed(x, r) == NoReason && Refused(x, r) == NoReason
    ensures NoOwnTrade(x.(states := x.states[x.nextId := NewState(x, r)], nextId := x.nextId + 1), x.nextId)
  {
    var id := x.nextId;
    var x1 := x.(states := x.states[id := NewState(x, r)], nextId := id + 1);
    AcceptedTakes(x, r);
    forall k | SelfTradeWith(x1, k, r.side, r.orderType, r.price, r.clientId, id)
      ensures SelfTradeWith(x, k, r.side, r.orderType, r.price, r.clientId, INVALID_ID)
    {
      SameInBook(x, x1, k);
    }
  }

  lemma AmendIsClean(x: Exchange, r: ReplaceRequest, canRest: bool)
    requires Ok(x) && InBook(x, r.orderId) && r.price > 0 && r.quantity > 0
    requires var st := x.states[r.orderId]; !WouldSelfTrade(x, st.side, st.orderType, r.price, st.clientId, st.orderId)
    ensures var (x', reports) := Amend(x, r, canRest);
      reports != [] && CleanTrades(x'.states, reports, (|reports| - 1) / 2)
  {
    WithdrawnTakes(x, r);
    var x1 := Withdrawn(x, r);
    AmendedIsFair(x, r);
    MatchIsClean(x1, r.orderId, r.quantity, r.timestamp);
    var (x2, remaining, trades) := Match(x1, r.orderId, r.quantity, r.timestamp);
    MatchTerms(x1, r.orderId, r.quantity, r.timestamp);
    FinishCloses(x2, r.orderId, remaining, canRest);
    var (x3, closing) := FinishAmend(x2, r.orderId, remaining, r, canRest);
    Framed(x2.states, x3.states, MakeReport(x1.states[r.orderId], ExecReplaced, 0, 0, r.timestamp, NoReason), trades,
           closing);
  }

  lemma AmendedIsFair(x: Exchange, r: ReplaceRequest)
    requires Ok(x) && InBook(x, r.orderId) && r.price > 0 && r.quantity > 0
    requires var st := x.states[r.orderId]; !WouldSelfTrade(x, st.side, st.orderType, r.price, st.clientId, st.orderId)
    ensures NoOwnTrade(Withdrawn(x, r), r.orderId)
  {
    var st, x1 := x.states[r.orderId], Withdrawn(x, r);
    WithdrawnTakes(x, r);
    forall k | SelfTradeWith(x1, k, st.side, st.orderType, r.price, st.clientId, r.orderId)
      ensures SelfTradeWith(x, k, st.side, st.orderType, r.price, st.clientId, st.orderId)
    {
      assert InBook(x, k) && k != r.orderId;
    }
  }

  // ----- whole runs

  ghost function RunFrom(symbol: nat, requests: seq<Request>, canRest: bool): (r: (Exchange, seq<Report>))
    ensures Good(r.0) && r.0.symbol == symbol
  {
    if requests == [] then (Fresh(symbol), []) else
    var (x, reports) := RunFrom(symbol, requests[..|requests| - 1], canRest);
    HandleGood(x, requests[|requests| - 1], canRest);
    var (x', more) := Handle(x, requests[|requests| - 1], canRest);
    (x', reports + more)
  }
}
