/** What an accepted request leaves behind: what the order traded, where the rest of it stands, and
    that every other order keeps its state and its place. */
module RequestEffects {
  import opened Types
  import opened Ranking
  import opened Reports
  import opened Exchanges
  import opened MatchingLaws
  import opened PriceLaws
  import opened ExchangeLaws
  import opened Outcomes

  // ----- what matching leaves

  /** The back part of a queue. */
  predicate BackOf(back: seq<nat>, q: seq<nat>) {
    |back| <= |q| && back == q[|q| - |back|..]
  }

  /** The order kept its state, or it was faced and has traded. */
  predicate KeptOrTraded(x: Exchange, x': Exchange, side: Side, orderType: OrderType, limit: int, k: nat)
    requires k in x.states && k in x'.states
  {
    x'.states[k] == x.states[k]
    || (Facing(x, side, orderType, limit, k) && SameTerms(x'.states[k], x.states[k]) && x'.states[k].filled > x.states[k].filled)
  }

  /** The side of the incoming order is as it was, opposing queues lost orders from the front only, and
      no order but those faced has changed. */
  ghost predicate Spares(x: Exchange, x': Exchange, id: nat, side: Side, orderType: OrderType, limit: int) {
    && x'.states.Keys == x.states.Keys && On(x', side) == On(x, side)
    && (forall p :: BackOf(QueueAt(On(x', Opposite(side)), p), QueueAt(On(x, Opposite(side)), p)))
    && (forall k :: k in x.states && k != id ==> KeptOrTraded(x, x', side, orderType, limit, k))
  }

  lemma TakeQueues(x: Exchange, id: nat, remaining: int, ts: int)
    requires CanTake(x, id, remaining)
    ensures var x', side := Take(x, id, remaining, ts).0, x.states[id].side;
      && On(x', side) == On(x, side)
      && forall p :: BackOf(QueueAt(On(x', Opposite(side)), p), QueueAt(On(x, Opposite(side)), p))
  {
    TakeFacts(x, id, remaining);
  }

  lemma TakeStates(x: Exchange, id: nat, remaining: int, ts: int)
    requires CanTake(x, id, remaining)
    ensures var (x', left, _) := Take(x, id, remaining, ts); var st := x.states[id];
      && x'.states.Keys == x.states.Keys
      && (forall k :: k in x.states && k != id ==> KeptOrTraded(x, x', st.side, st.orderType, st.limit, k))
  {
    TakeFacts(x, id, remaining);
    var st := x.states[id];
    var rid := Opponent(x, st.side);
    assert Facing(x, st.side, st.orderType, st.limit, rid);
    forall k | k in x.states && k != id
      ensures KeptOrTraded(x, Take(x, id, remaining, ts).0, st.side, st.orderType, st.limit, k)
    {
      if k != rid { assert Take(x, id, remaining, ts).0.states[k] == x.states[k]; }
    }
  }

  lemma TakeStatus(x: Exchange, id: nat, remaining: int, ts: int)
    requires CanTake(x, id, remaining)
    ensures var (x', left, _) := Take(x, id, remaining, ts);
      && id in x'.states && SameTerms(x'.states[id], x.states[id])
      && x'.states[id].status == if left == 0 then Filled else PartiallyFilled
  {
    TakeFacts(x, id, remaining);
  }

  lemma TakeSpares(x: Exchange, id: nat, remaining: int, ts: int)
    requires CanTake(x, id, remaining)
    ensures Spares(x, Take(x, id, remaining, ts).0, id, x.states[id].side, x.states[id].orderType, x.states[id].limit)
  {
    TakeQueues(x, id, remaining, ts);
    TakeStates(x, id, remaining, ts);
  }

  lemma SparesOn(x: Exchange, y: Exchange, z: Exchange, id: nat, side: Side, orderType: OrderType, limit: int)
    requires Spares(x, y, id, side, orderType, limit) && Spares(y, z, id, side, orderType, limit)
    requires forall k :: InBook(y, k) ==> InBook(x, k)
    ensures Spares(x, z, id, side, orderType, limit)
  {
    var opp := Opposite(side);
    forall p ensures BackOf(QueueAt(On(z, opp), p), QueueAt(On(x, opp), p)) {
      BackOfBack(QueueAt(On(z, opp), p), QueueAt(On(y, opp), p), QueueAt(On(x, opp), p));
    }
    forall k | k in x.states && k != id ensures KeptOrTraded(x, z, side, orderType, limit, k) {
      KeptThrough(x, y, z, side, orderType, limit, k);
    }
  }

  lemma KeptThrough(x: Exchange, y: Exchange, z: Exchange, side: Side, orderType: OrderType, limit: int, k: nat)
    requires k in x.states && k in y.states && k in z.states && (InBook(y, k) ==> InBook(x, k))
    requires KeptOrTraded(x, y, side, orderType, limit, k) && KeptOrTraded(y, z, side, orderType, limit, k)
    ensures KeptOrTraded(x, z, side, orderType, limit, k)
  {
    if z.states[k] != y.states[k] {
      assert Facing(y, side, orderType, limit, k) && InBook(x, k);
    }
  }

  lemma BackOfBack(a: seq<nat>, b: seq<nat>, c: seq<nat>)
    requires BackOf(a, b) && BackOf(b, c)
    ensures BackOf(a, c)
  {
  }

  /** Matching as a whole spares everything but the orders it trades with. */
  lemma {:induction false} MatchSpares(x: Exchange, id: nat, remaining: int, ts: int)
    requires Taking(x, id, remaining)
    ensures var (x', left, reports) := Match(x, id, remaining, ts); var st := x.states[id];
      && Spares(x, x', id, st.side, st.orderType, st.limit) && id in x'.states && SameTerms(x'.states[id], st)
      && (if left == remaining then x' == x && reports == []
          else x'.states[id].status == if left == 0 then Filled else PartiallyFilled)
    decreases remaining
  {
    if CanTake(x, id, remaining) {
      var st := x.states[id];
      var (y, left, two) := Take(x, id, remaining, ts);
      TakeKeeps(x, id, remaining, ts);
      TakeSpares(x, id, remaining, ts);
      TakeStatus(x, id, remaining, ts);
      TakeTouches(x, id, remaining, ts);
      MatchSpares(y, id, left, ts);
      MatchKeeps(y, id, left, ts);
      SparesOn(x, y, Match(y, id, left, ts).0, id, st.side, st.orderType, st.limit);
    }
  }

  /** How much an order trades: what it wants, or all that is left of the orders it faces. */
  lemma MatchTakes(x: Exchange, id: nat, remaining: int, ts: int)
    requires Taking(x, id, remaining)
    ensures var (x', left, _) := Match(x, id, remaining, ts); var st := x.states[id];
      && remaining - left == Min(remaining, Left(x.states, FacingIds(x, st.side, st.orderType, st.limit)))
      && id in x'.states && x'.states[id].filled == st.filled + remaining - left
  {
    var st := x.states[id];
    MatchPrices(x, id, remaining, ts);
    MatchKeeps(x, id, remaining, ts);
    FacingLeft(x, st.side, st.orderType, st.limit);
  }

  // ----- what a new order leaves

  lemma {:induction false} LeftSame(states: States, states': States, ids: set<nat>)
    requires ids <= states.Keys && ids <= states'.Keys
    requires forall k :: k in ids ==> Remaining(states'[k]) == Remaining(states[k])
    ensures Left(states', ids) == Left(states, ids)
    decreases |ids|
  {
    if ids != {} {
      LeftSame(states, states', ids - {Pick(ids)});
    }
  }

  /** A new order faces the orders that were resting before it came. */
  lemma AcceptedFaces(x: Exchange, r: NewRequest)
    requires Ok(x) && Malformed(x, r) == NoReason
    ensures var x1 := Accepted(x, r);
      && (forall k :: k in x.states ==> Facing(x1, r.side, r.orderType, r.price, k) == Facing(x, r.side, r.orderType, r.price, k))
      && FacingIds(x1, r.side, r.orderType, r.price) == FacingIds(x, r.side, r.orderType, r.price)
      && Left(x1.states, FacingIds(x1, r.side, r.orderType, r.price)) == Within(x, r)
  {
    var x1 := Accepted(x, r);
    AcceptedTakes(x, r);
    forall k | k in x.states ensures InBook(x1, k) == InBook(x, k) {
      SameInBook(x, x1, k);
    }
    LeftSame(x.states, x1.states, FacingIds(x, r.side, r.orderType, r.price));
  }

  /** The order stands at the back of its queue or nowhere, and opposing queues lost orders from the front only. */
  ghost predicate Placed(x: Exchange, x': Exchange, id: nat, side: Side, limit: int, rests: bool) {
    && On(x', side) == (if rests then On(x, side)[limit := QueueAt(On(x, side), limit) + [id]] else On(x, side))
    && (forall p :: BackOf(QueueAt(On(x', Opposite(side)), p), QueueAt(On(x, Opposite(side)), p)))
  }

  /** No order but this one and those faced has changed. */
  ghost predicate OthersKept(x: Exchange, x': Exchange, id: nat, side: Side, orderType: OrderType, limit: int) {
    && x'.states.Keys == x.states.Keys + {id}
    && (forall k :: k in x.states && k != id ==> KeptOrTraded(x, x', side, orderType, limit, k))
  }

  ghost predicate LeftBehind(x: Exchange, x': Exchange, id: nat, side: Side, orderType: OrderType, limit: int, rests: bool) {
    Placed(x, x', id, side, limit, rests) && OthersKept(x, x', id, side, orderType, limit)
  }

  /** How an order that got so much ends up. */
  function FinalStatus(got: int, quantity: int, keeps: bool, canRest: bool): Status {
    if got == quantity then Filled
    else if !keeps then Canceled
    else if !canRest then Rejected
    else if got > 0 then PartiallyFilled
    else NewOrder
  }

  predicate HasTerms(st: OrderState, r: NewRequest, id: nat) {
    && st.side == r.side && st.orderType == r.orderType && st.limit == r.price && st.original == r.quantity
    && st.clientId == r.clientId && st.orderId == id
  }

  /** A new order of these terms that traded `got`. */
  ghost predicate Ended(x: Exchange, x': Exchange, r: NewRequest, canRest: bool, got: int, id: nat) {
    var keeps := r.orderType == Limit && r.tif == Gtc;
    && LeftBehind(x, x', id, r.side, r.orderType, r.price, got < r.quantity && keeps && canRest)
    && id in x'.states && HasTerms(x'.states[id], r, id) && x'.states[id].filled == got
    && x'.states[id].status == FinalStatus(got, r.quantity, keeps, canRest)
  }

  lemma KeptBefore(x: Exchange, x1: Exchange, x2: Exchange, side: Side, orderType: OrderType, limit: int, k: nat)
    requires k in x.states && k in x1.states && k in x2.states && x1.states[k] == x.states[k]
    requires Facing(x1, side, orderType, limit, k) == Facing(x, side, orderType, limit, k)
    requires KeptOrTraded(x1, x2, side, orderType, limit, k)
    ensures KeptOrTraded(x, x2, side, orderType, limit, k)
  {
  }

  /** What matching spares of an exchange with the new order, it spares of the one before it. */
  lemma SparedBefore(x: Exchange, r: NewRequest, x2: Exchange)
    requires var x1 := Accepted(x, r);
      forall k :: k in x.states ==> Facing(x1, r.side, r.orderType, r.price, k) == Facing(x, r.side, r.orderType, r.price, k)
    requires Spares(Accepted(x, r), x2, x.nextId, r.side, r.orderType, r.price)
    ensures LeftBehind(x, x2, x.nextId, r.side, r.orderType, r.price, false)
  {
    PlacedBefore(x, r, x2);
    OthersBefore(x, r, x2);
  }

  lemma PlacedBefore(x: Exchange, r: NewRequest, x2: Exchange)
    requires Spares(Accepted(x, r), x2, x.nextId, r.side, r.orderType, r.price)
    ensures Placed(x, x2, x.nextId, r.side, r.price, false)
  {
  }

  lemma OthersBefore(x: Exchange, r: NewRequest, x2: Exchange)
    requires var x1 := Accepted(x, r);
      forall k :: k in x.states ==> Facing(x1, r.side, r.orderType, r.price, k) == Facing(x, r.side, r.orderType, r.price, k)
    requires Spares(Accepted(x, r), x2, x.nextId, r.side, r.orderType, r.price)
    ensures OthersKept(x, x2, x.nextId, r.side, r.orderType, r.price)
  {
    forall k | k in x.states && k != x.nextId ensures KeptOrTraded(x, x2, r.side, r.orderType, r.price, k) {
      KeptBefore(x, Accepted(x, r), x2, r.side, r.orderType, r.price, k);
    }
  }

  /** The new order's own state after matching. */
  predicate Matched(x2: Exchange, r: NewRequest, id: nat, left: int, trades: seq<Report>) {
    && id in x2.states && HasTerms(x2.states[id], r, id) && x2.states[id].filled == r.quantity - left
    && x2.states[id].status == (if left == 0 then Filled else if left < r.quantity then PartiallyFilled else NewOrder)
    && (left == r.quantity ==> trades == [])
  }

  lemma MatchOwn(x: Exchange, r: NewRequest)
    requires Ok(x) && Malformed(x, r) == NoReason
    ensures Taking(Accepted(x, r), x.nextId, r.quantity)
    ensures var (x2, left, trades) := Match(Accepted(x, r), x.nextId, r.quantity, r.timestamp);
      Matched(x2, r, x.nextId, left, trades) && 0 <= left <= r.quantity
  {
    var x1, id := Accepted(x, r), x.nextId;
    AcceptedTakes(x, r);
    AcceptedState(x, r);
    MatchSpares(x1, id, r.quantity, r.timestamp);
    MatchKeeps(x1, id, r.quantity, r.timestamp);
  }

  /** A new order trades all that is left of the orders it meets, up to what it wants. */
  lemma MatchGets(x: Exchange, r: NewRequest)
    requires Ok(x) && Malformed(x, r) == NoReason
    ensures Taking(Accepted(x, r), x.nextId, r.quantity)
    ensures r.quantity - Match(Accepted(x, r), x.nextId, r.quantity, r.timestamp).1 == Min(r.quantity, Within(x, r))
  {
    AcceptedTakes(x, r);
    AcceptedFaces(x, r);
    AcceptedState(x, r);
    MatchTakes(Accepted(x, r), x.nextId, r.quantity, r.timestamp);
  }

  lemma MatchBehind(x: Exchange, r: NewRequest)
    requires Ok(x) && Malformed(x, r) == NoReason
    ensures Taking(Accepted(x, r), x.nextId, r.quantity)
    ensures LeftBehind(x, Match(Accepted(x, r), x.nextId, r.quantity, r.timestamp).0, x.nextId, r.side, r.orderType, r.price, false)
  {
    AcceptedTakes(x, r);
    AcceptedState(x, r);
    AcceptedFaces(x, r);
    MatchSpares(Accepted(x, r), x.nextId, r.quantity, r.timestamp);
    SparedBefore(x, r, Match(Accepted(x, r), x.nextId, r.quantity, r.timestamp).0);
  }

  lemma KeptSame(x: Exchange, x2: Exchange, x3: Exchange, side: Side, orderType: OrderType, limit: int, k: nat)
    requires k in x.states && k in x2.states && k in x3.states && x3.states[k] == x2.states[k]
    requires KeptOrTraded(x, x2, side, orderType, limit, k)
    ensures KeptOrTraded(x, x3, side, orderType, limit, k)
  {
  }

  /** Nothing but the order's own state has changed since. */
  lemma OthersStay(x: Exchange, x2: Exchange, x3: Exchange, id: nat, side: Side, orderType: OrderType, limit: int)
    requires OthersKept(x, x2, id, side, orderType, limit) && x3.states.Keys == x2.states.Keys
    requires forall k :: k in x2.states && k != id ==> x3.states[k] == x2.states[k]
    ensures OthersKept(x, x3, id, side, orderType, limit)
  {
    forall k | k in x.states && k != id ensures KeptOrTraded(x, x3, side, orderType, limit, k) {
      KeptSame(x, x2, x3, side, orderType, limit, k);
    }
  }

  lemma RestPlaces(x: Exchange, x2: Exchange, id: nat, side: Side, limit: int)
    requires Placed(x, x2, id, side, limit, false) && ValidSide(side)
    requires id in x2.states && x2.states[id].side == side && x2.states[id].limit == limit
    ensures Placed(x, Rest(x2, id), id, side, limit, true)
  {
  }

  lemma SamePlaces(x: Exchange, x2: Exchange, x3: Exchange, id: nat, side: Side, limit: int, rests: bool)
    requires Placed(x, x2, id, side, limit, rests) && x3.bids == x2.bids && x3.asks == x2.asks
    ensures Placed(x, x3, id, side, limit, rests)
  {
  }

  /** Closing a matched order: it goes to the back of its queue, or is done with. */
  lemma FinishEnds(x: Exchange, x2: Exchange, r: NewRequest, id: nat, left: int, trades: seq<Report>, canRest: bool)
    requires LeftBehind(x, x2, id, r.side, r.orderType, r.price, false) && ValidSide(r.side)
    requires Matched(x2, r, id, left, trades) && 0 <= left <= r.quantity && r.quantity > 0
    ensures Ended(x, FinishNew(x2, id, left, r, canRest).0, r, canRest, r.quantity - left, id)
  {
    FinishPlaces(x, x2, r, id, left, canRest);
    FinishTouches(x2, r, id, left, canRest);
    OthersStay(x, x2, FinishNew(x2, id, left, r, canRest).0, id, r.side, r.orderType, r.price);
    FinishState(x2, r, id, left, trades, canRest);
  }

  lemma FinishTouches(x2: Exchange, r: NewRequest, id: nat, left: int, canRest: bool)
    requires id in x2.states
    ensures var x3 := FinishNew(x2, id, left, r, canRest).0;
      x3.states.Keys == x2.states.Keys && forall k :: k in x2.states && k != id ==> x3.states[k] == x2.states[k]
  {
  }

  lemma FinishState(x2: Exchange, r: NewRequest, id: nat, left: int, trades: seq<Report>, canRest: bool)
    requires Matched(x2, r, id, left, trades) && 0 <= left <= r.quantity && r.quantity > 0
    ensures var x3 := FinishNew(x2, id, left, r, canRest).0;
      && id in x3.states && HasTerms(x3.states[id], r, id) && x3.states[id].filled == r.quantity - left
      && x3.states[id].status == FinalStatus(r.quantity - left, r.quantity, r.orderType == Limit && r.tif == Gtc, canRest)
  {
  }

  lemma FinishPlaces(x: Exchange, x2: Exchange, r: NewRequest, id: nat, left: int, canRest: bool)
    requires Placed(x, x2, id, r.side, r.price, false) && ValidSide(r.side)
    requires id in x2.states && HasTerms(x2.states[id], r, id)
    ensures Placed(x, FinishNew(x2, id, left, r, canRest).0, id, r.side, r.price, left > 0 && r.orderType == Limit && r.tif == Gtc && canRest)
  {
    var x3 := if x2.states[id].filled > 0 then SetStatus(x2, id, PartiallyFilled) else x2;
    SamePlaces(x, x2, x3, id, r.side, r.price, false);
    RestPlaces(x, x3, id, r.side, r.price);
    SamePlaces(x, x2, SetStatus(x3, id, Rejected), id, r.side, r.price, false);
    SamePlaces(x, x2, SetStatus(x2, id, Canceled), id, r.side, r.price, false);
  }

  /** What is reported once the opening report and the trades are out. */
  predicate ClosedBy(closing: seq<Report>, id: nat, got: int, quantity: int, keeps: bool, canRest: bool) {
    if got == quantity || (keeps && canRest) then closing == []
    else |closing| == 1 && closing[0].orderId == id && closing[0].execType == (if keeps then ExecRejected else ExecCanceled)
  }

  /** The reports of one request: an opening one, the trades, what closes it. */
  predicate Story(reports: seq<Report>, opening: ExecType, trades: seq<Report>, closing: seq<Report>, id: nat) {
    && reports != [] && reports == [reports[0]] + trades + closing
    && reports[0].execType == opening && reports[0].orderId == id
    && (forall i :: 0 <= i < |trades| ==> trades[i].execType == Trade)
  }

  lemma AllTrades(reports: seq<Report>, fills: seq<Taken>, id: nat)
    requires TradesMatch(reports, fills, id)
    ensures forall i :: 0 <= i < |reports| ==> reports[i].execType == Trade
  {
    forall i | 0 <= i < |reports| ensures reports[i].execType == Trade {
      assert TradeOf(reports[2 * (i / 2)], fills[i / 2], fills[i / 2].id) && TradeOf(reports[2 * (i / 2) + 1], fills[i / 2], id);
    }
  }

  lemma MatchTrades(x: Exchange, id: nat, remaining: int, ts: int)
    requires Taking(x, id, remaining)
    ensures forall i :: 0 <= i < |Match(x, id, remaining, ts).2| ==> Match(x, id, remaining, ts).2[i].execType == Trade
  {
    var st := x.states[id];
    MatchFollowsPriority(x, id, remaining, ts);
    AllTrades(Match(x, id, remaining, ts).2, Fills(Offers(x, Opposite(st.side)), st.side, st.orderType, st.limit, remaining), id);
  }

  lemma ReservedMeets(x: Exchange, r: NewRequest)
    ensures Within(Reserved(x, r.clientOrderId), r) == Within(x, r)
  {
    var x1 := Reserved(x, r.clientOrderId);
    assert FacingIds(x1, r.side, r.orderType, r.price) == FacingIds(x, r.side, r.orderType, r.price);
  }

  lemma EndedBefore(x: Exchange, x': Exchange, r: NewRequest, canRest: bool, got: int, id: nat)
    requires Ended(Reserved(x, r.clientOrderId), x', r, canRest, got, id)
    ensures Ended(x, x', r, canRest, got, id)
  {
    var x1 := Reserved(x, r.clientOrderId);
    forall k | k in x.states && k != id ensures KeptOrTraded(x, x', r.side, r.orderType, r.price, k) {
      KeptBefore(x, x1, x', r.side, r.orderType, r.price, k);
    }
  }

  /** The whole story of a new order that got so much. */
  ghost predicate Told(reports: seq<Report>, r: NewRequest, canRest: bool, got: int, id: nat) {
    exists trades, closing :: Story(reports, ExecNew, trades, closing, id) && (got == 0 ==> trades == [])
      && ClosedBy(closing, id, got, r.quantity, r.orderType == Limit && r.tif == Gtc, canRest)
  }

  /** Matching a new order and then closing it. */
  ghost function MatchedAndClosed(x: Exchange, r: NewRequest, canRest: bool): (Exchange, seq<Report>)
    requires Ok(x) && Malformed(x, r) == NoReason
  {
    AcceptedTakes(x, r);
    var (x2, left, trades) := Match(Accepted(x, r), x.nextId, r.quantity, r.timestamp);
    MatchKeeps(Accepted(x, r), x.nextId, r.quantity, r.timestamp);
    var (x3, closing) := FinishNew(x2, x.nextId, left, r, canRest);
    (x3, [MakeReport(NewState(x, r), ExecNew, 0, 0, r.timestamp, NoReason)] + trades + closing)
  }

  lemma AcceptIs(x: Exchange, r: NewRequest, canRest: bool)
    requires Ok(x) && Malformed(x, r) == NoReason
    ensures Accept(x, r, canRest) == MatchedAndClosed(x, r, canRest)
  {
  }

  lemma MatchedEffect(x: Exchange, r: NewRequest, canRest: bool)
    requires Ok(x) && Malformed(x, r) == NoReason
    ensures Ended(x, MatchedAndClosed(x, r, canRest).0, r, canRest, Min(r.quantity, Within(x, r)), x.nextId)
  {
    MatchOwn(x, r);
    MatchGets(x, r);
    MatchBehind(x, r);
    var (x2, left, trades) := Match(Accepted(x, r), x.nextId, r.quantity, r.timestamp);
    FinishEnds(x, x2, r, x.nextId, left, trades, canRest);
    assert MatchedAndClosed(x, r, canRest).0 == FinishNew(x2, x.nextId, left, r, canRest).0;
  }

  /** An accepted order, whatever its reservation. */
  lemma AcceptEffect(x: Exchange, r: NewRequest, canRest: bool)
    requires Ok(x) && Malformed(x, r) == NoReason
    ensures Ended(x, Accept(x, r, canRest).0, r, canRest, Min(r.quantity, Within(x, r)), x.nextId)
  {
    AcceptIs(x, r, canRest);
    MatchedEffect(x, r, canRest);
  }

  lemma MatchedTold(x: Exchange, r: NewRequest, canRest: bool)
    requires Ok(x) && Malformed(x, r) == NoReason
    ensures Told(MatchedAndClosed(x, r, canRest).1, r, canRest, Min(r.quantity, Within(x, r)), x.nextId)
  {
    var id := x.nextId;
    MatchOwn(x, r);
    MatchGets(x, r);
    var (x2, left, trades) := Match(Accepted(x, r), id, r.quantity, r.timestamp);
    MatchTrades(Accepted(x, r), id, r.quantity, r.timestamp);
    FinishCloser(x2, r, id, left, trades, canRest);
    assert Story(MatchedAndClosed(x, r, canRest).1, ExecNew, trades, FinishNew(x2, id, left, r, canRest).1, id);
  }

  lemma AcceptTold(x: Exchange, r: NewRequest, canRest: bool)
    requires Ok(x) && Malformed(x, r) == NoReason
    ensures Told(Accept(x, r, canRest).1, r, canRest, Min(r.quantity, Within(x, r)), x.nextId)
  {
    AcceptIs(x, r, canRest);
    MatchedTold(x, r, canRest);
  }

  lemma AcceptMoves(x: Exchange, r: NewRequest, canRest: bool)
    requires Ok(x) && Malformed(x, r) == NoReason
    ensures var x' := Accept(x, r, canRest).0; x'.nextId == x.nextId + 1 && x'.seen == x.seen && x'.symbol == x.symbol
  {
    AcceptedTakes(x, r);
    MatchKeeps(Accepted(x, r), x.nextId, r.quantity, r.timestamp);
  }

  lemma FinishCloser(x2: Exchange, r: NewRequest, id: nat, left: int, trades: seq<Report>, canRest: bool)
    requires Matched(x2, r, id, left, trades) && 0 <= left <= r.quantity
    ensures ClosedBy(FinishNew(x2, id, left, r, canRest).1, id, r.quantity - left, r.quantity, r.orderType == Limit && r.tif == Gtc, canRest)
  {
  }

  /** An order that is not refused trades all it can with the orders it meets, up to its quantity; what is
      left of it stands last at its price if it may rest there, and is cancelled or rejected otherwise. */
  lemma SubmitEffect(x: Exchange, r: NewRequest, canRest: bool)
    requires Ok(x) && Refusal(SubmitOrder(x, r, canRest).1) == NoReason
    ensures var (x', reports) := SubmitOrder(x, r, canRest); var got := Min(r.quantity, Within(x, r));
      && Ended(x, x', r, canRest, got, x.nextId) && Told(reports, r, canRest, got, x.nextId)
      && x'.nextId == x.nextId + 1 && x'.seen == x.seen + {r.clientOrderId} && x'.symbol == x.symbol
  {
    SubmitRefusal(x, r, canRest);
    var x1 := Reserved(x, r.clientOrderId);
    SubmitAccepts(x, r, canRest);
    ReservedOk(x, r.clientOrderId);
    ReservedMeets(x, r);
    AcceptEffect(x1, r, canRest);
    AcceptTold(x1, r, canRest);
    AcceptMoves(x1, r, canRest);
    EndedBefore(x, Accept(x1, r, canRest).0, r, canRest, Min(r.quantity, Within(x, r)), x.nextId);
  }

  lemma SubmitAccepts(x: Exchange, r: NewRequest, canRest: bool)
    requires Ok(x) && Refusal(SubmitOrder(x, r, canRest).1) == NoReason
    ensures var x1 := Reserved(x, r.clientOrderId);
      Ok(x1) && Malformed(x1, r) == NoReason && SubmitOrder(x, r, canRest) == Accept(x1, r, canRest)
  {
    ReservedOk(x, r.clientOrderId);
  }

  lemma UntradedStory(reports: seq<Report>, r: NewRequest, canRest: bool, id: nat)
    requires Told(reports, r, canRest, 0, id) && r.quantity > 0
    ensures forall i :: 0 <= i < |reports| ==> reports[i].execType != Trade
    ensures r.orderType == Limit && r.tif == Gtc && canRest ==> |reports| == 1
  {
    var trades, closing :| Story(reports, ExecNew, trades, closing, id) && trades == []
      && ClosedBy(closing, id, 0, r.quantity, r.orderType == Limit && r.tif == Gtc, canRest);
  }

  /** A post-only order never trades: it is refused, or all of it stands last at its price and every other
      order keeps its state and its place. */
  lemma PostOnlyNeverTrades(x: Exchange, r: NewRequest, canRest: bool)
    requires Ok(x) && r.postOnly
    ensures var (x', reports) := SubmitOrder(x, r, canRest);
      && (forall i :: 0 <= i < |reports| ==> reports[i].execType != Trade)
      && (Refusal(reports) == NoReason ==> Ended(x, x', r, canRest, 0, x.nextId) && (canRest ==> |reports| == 1))
      && (Refusal(reports) == NoReason ==> forall k :: k in x.states && k != x.nextId ==> k in x'.states && x'.states[k] == x.states[k])
  {
    var (x', reports) := SubmitOrder(x, r, canRest);
    if Refusal(reports) == NoReason {
      PostOnlyMeetsNone(x, r, canRest);
      SubmitEffect(x, r, canRest);
      NoneLeft(x, r.side, r.orderType, r.price);
      UntradedStory(reports, r, canRest, x.nextId);
      forall k | k in x.states && k != x.nextId ensures x'.states[k] == x.states[k] {
        assert KeptOrTraded(x, x', r.side, r.orderType, r.price, k);
      }
    }
  }

  lemma PostOnlyMeetsNone(x: Exchange, r: NewRequest, canRest: bool)
    requires Ok(x) && r.postOnly && Refusal(SubmitOrder(x, r, canRest).1) == NoReason
    ensures !MeetsAny(x, r) && WellFormed(x.symbol, r)
  {
    SubmitRefusal(x, r, canRest);
  }

  // ----- what a cancel leaves

  /** Only this queue has changed, and only by losing the order at one position. */
  ghost predicate LostFrom(ladder: IdLadder, ladder': IdLadder, price: int, id: nat) {
    && (exists i :: LostAt(QueueAt(ladder, price), QueueAt(ladder', price), i, id))
    && forall p :: p != price ==> QueueAt(ladder', p) == QueueAt(ladder, p)
  }

  predicate LostAt(q: seq<nat>, q': seq<nat>, i: nat, id: nat) {
    i < |q| && q[i] == id && q' == q[..i] + q[i + 1..]
  }

  lemma {:induction false} WithoutAbsent(q: seq<nat>, id: nat)
    requires id !in q
    ensures Without(q, id) == q
  {
    if q != [] {
      WithoutAbsent(q[1..], id);
    }
  }

  lemma {:induction false} WithoutAt(q: seq<nat>, i: nat)
    requires Distinct(q) && i < |q|
    ensures LostAt(q, Without(q, q[i]), i, q[i])
  {
    if i == 0 {
      WithoutAbsent(q[1..], q[0]);
    } else {
      WithoutAt(q[1..], i - 1);
      assert q[1..][..i - 1] == q[1..i] && q[1..][i..] == q[i + 1..];
      assert [q[0]] + q[1..i] == q[..i];
      assert Without(q, q[i]) == [q[0]] + Without(q[1..], q[i]);
    }
  }

  lemma UnrestLoses(x: Exchange, id: nat)
    requires Ok(x) && InBook(x, id)
    ensures var st := x.states[id];
      && LostFrom(On(x, st.side), On(Unrest(x, id), st.side), st.limit, id)
      && On(Unrest(x, id), Opposite(st.side)) == On(x, Opposite(st.side))
  {
    var st := x.states[id];
    var q := QueueAt(On(x, st.side), st.limit);
    var i :| 0 <= i < |q| && q[i] == id;
    WithoutAt(q, i);
    assert LostAt(q, QueueAt(On(Unrest(x, id), st.side), st.limit), i, id);
  }

  /** A client order id nobody used. */
  predicate Unused(x: Exchange, clientOrderId: nat) {
    clientOrderId != INVALID_ID && clientOrderId !in x.seen
  }

  lemma CancelRefusal(x: Exchange, r: CancelRequest)
    requires Ok(x)
    ensures var (x', reports) := CancelOrder(x, r); var why := Refusal(reports);
      && (why == DuplicateClientOrderId <==> !Unused(x, r.clientOrderId))
      && (why == UnknownOrder <==> Unused(x, r.clientOrderId) && !InBook(x, r.orderId))
      && (why == NoReason <==> Unused(x, r.clientOrderId) && InBook(x, r.orderId))
      && (why != NoReason ==> x'.(seen := x.seen) == x)
  {
    var x1 := Reserved(x, r.clientOrderId);
    ReservedOk(x, r.clientOrderId);
    assert InBook(x1, r.orderId) == InBook(x, r.orderId);
  }

  /** A cancel takes exactly the named order out of its queue and says so, and changes nothing else. */
  lemma CancelEffect(x: Exchange, r: CancelRequest)
    requires Ok(x) && Refusal(CancelOrder(x, r).1) == NoReason
    ensures InBook(x, r.orderId)
    ensures var (x', reports) := CancelOrder(x, r); var st := x.states[r.orderId];
      && LostFrom(On(x, st.side), On(x', st.side), st.limit, r.orderId) && On(x', Opposite(st.side)) == On(x, Opposite(st.side))
      && x'.states == x.states[r.orderId := st.(status := Canceled)]
      && |reports| == 1 && reports[0].execType == ExecCanceled && reports[0].orderId == r.orderId
      && reports[0].filled == st.filled && reports[0].remaining == 0
  {
    CancelRefusal(x, r);
    var x1 := Reserved(x, r.clientOrderId);
    ReservedOk(x, r.clientOrderId);
    UnrestLoses(x1, r.orderId);
  }

  // ----- what a replacement leaves

  /** Another resting order of the same client that the replaced order would reach. */
  ghost predicate ReplaceMeetsOwn(x: Exchange, r: ReplaceRequest)
    requires r.orderId in x.states
  {
    var st := x.states[r.orderId];
    st.clientId != 0
    && exists k :: Facing(x, st.side, st.orderType, r.price, k) && x.states[k].clientId == st.clientId && k != r.orderId
  }

  predicate ReplaceAdmitted(x: Exchange, r: ReplaceRequest) {
    r.quantity > 0 && r.price > 0 && Unused(x, r.clientOrderId)
  }

  lemma ReplaceRefusal(x: Exchange, r: ReplaceRequest, canRest: bool)
    requires Ok(x)
    ensures var (x', reports) := ReplaceOrder(x, r, canRest); var why := Refusal(reports);
      && (why == InvalidQuantity <==> r.quantity <= 0)
      && (why == InvalidPrice <==> r.quantity > 0 && r.price <= 0)
      && (why == DuplicateClientOrderId <==> r.quantity > 0 && r.price > 0 && !Unused(x, r.clientOrderId))
      && (why == UnknownOrder <==> ReplaceAdmitted(x, r) && !InBook(x, r.orderId))
      && (why == SelfTradePrevention <==> ReplaceAdmitted(x, r) && InBook(x, r.orderId) && ReplaceMeetsOwn(x, r))
      && (why == NoReason <==> ReplaceAdmitted(x, r) && InBook(x, r.orderId) && !ReplaceMeetsOwn(x, r))
      && (why != NoReason ==> x'.(seen := x.seen) == x)
  {
    var x1 := Reserved(x, r.clientOrderId);
    ReservedOk(x, r.clientOrderId);
    assert InBook(x1, r.orderId) == InBook(x, r.orderId);
    if ReplaceAdmitted(x, r) && InBook(x, r.orderId) {
      var st := x.states[r.orderId];
      ReplaceOwn(x, r);
      if !WouldSelfTrade(x1, st.side, st.orderType, r.price, st.clientId, st.orderId) {
        AmendOpens(x1, r, canRest);
      }
    }
  }

  lemma ReplaceOwn(x: Exchange, r: ReplaceRequest)
    requires Ok(x) && InBook(x, r.orderId)
    ensures var st := x.states[r.orderId];
      WouldSelfTrade(Reserved(x, r.clientOrderId), st.side, st.orderType, r.price, st.clientId, st.orderId) <==> ReplaceMeetsOwn(x, r)
  {
    var x1, st := Reserved(x, r.clientOrderId), x.states[r.orderId];
    forall k ensures SelfTradeWith(x1, k, st.side, st.orderType, r.price, st.clientId, st.orderId)
                <==> Facing(x, st.side, st.orderType, r.price, k) && x.states[k].clientId == st.clientId && k != r.orderId
    {
      assert InBook(x1, k) == InBook(x, k);
    }
  }

  lemma AmendOpens(x: Exchange, r: ReplaceRequest, canRest: bool)
    requires Ok(x) && InBook(x, r.orderId) && r.price > 0 && r.quantity > 0
    ensures Amend(x, r, canRest).1 != [] && Amend(x, r, canRest).1[0].execType == ExecReplaced
  {
    WithdrawnTakes(x, r);
    MatchKeeps(Withdrawn(x, r), r.orderId, r.quantity, r.timestamp);
  }

  /** A withdrawn order faces the orders it would face from its place in the book. */
  lemma WithdrawnFaces(x: Exchange, r: ReplaceRequest)
    requires Ok(x) && InBook(x, r.orderId) && r.price > 0 && r.quantity > 0
    ensures var st, x1 := x.states[r.orderId], Withdrawn(x, r);
      && (forall k :: Facing(x1, st.side, st.orderType, r.price, k) == Facing(x, st.side, st.orderType, r.price, k))
      && Left(x1.states, FacingIds(x1, st.side, st.orderType, r.price)) == Left(x.states, FacingIds(x, st.side, st.orderType, r.price))
  {
    var st, x1 := x.states[r.orderId], Withdrawn(x, r);
    UnrestKeeps(x, r.orderId);
    forall k ensures Facing(x1, st.side, st.orderType, r.price, k) == Facing(x, st.side, st.orderType, r.price, k) {
      if k != r.orderId && k in x.states { assert InBook(x1, k) == InBook(Unrest(x, r.orderId), k); }
    }
    assert FacingIds(x1, st.side, st.orderType, r.price) == FacingIds(x, st.side, st.orderType, r.price);
    LeftSame(x.states, x1.states, FacingIds(x, st.side, st.orderType, r.price));
  }

  /** How a replaced order that got so much ends up. */
  function AmendedStatus(got: int, quantity: int, canRest: bool): Status {
    if got == quantity then Filled else if !canRest then Rejected else if got > 0 then PartiallyFilled else Replaced
  }

  /** A replaced order keeps what it had traded, and wants the new quantity on top. */
  predicate HasNewTerms(st': OrderState, st: OrderState, r: ReplaceRequest) {
    && st'.side == st.side && st'.orderType == st.orderType && st'.limit == r.price && st'.original == st.filled + r.quantity
    && st'.clientId == st.clientId && st'.orderId == st.orderId
  }

  /** A replaced order that traded `got` of its new quantity. */
  ghost predicate Requoted(x: Exchange, x': Exchange, r: ReplaceRequest, canRest: bool, got: int)
    requires r.orderId in x.states
  {
    var st, id := x.states[r.orderId], r.orderId;
    && Placed(Withdrawn(x, r), x', id, st.side, r.price, got < r.quantity && canRest)
    && OthersKept(x, x', id, st.side, st.orderType, r.price)
    && id in x'.states && HasNewTerms(x'.states[id], st, r) && x'.states[id].filled == st.filled + got
    && x'.states[id].status == AmendedStatus(got, r.quantity, canRest)
  }

  predicate Rematched(x2: Exchange, st: OrderState, r: ReplaceRequest, left: int, trades: seq<Report>) {
    && r.orderId in x2.states && HasNewTerms(x2.states[r.orderId], st, r) && x2.states[r.orderId].filled == st.filled + r.quantity - left
    && x2.states[r.orderId].status == (if left == 0 then Filled else if left < r.quantity then PartiallyFilled else Replaced)
    && (left == r.quantity ==> trades == [])
  }

  lemma RematchOwn(x: Exchange, r: ReplaceRequest)
    requires Ok(x) && InBook(x, r.orderId) && r.price > 0 && r.quantity > 0
    ensures Taking(Withdrawn(x, r), r.orderId, r.quantity)
    ensures var (x2, left, trades) := Match(Withdrawn(x, r), r.orderId, r.quantity, r.timestamp);
      Rematched(x2, x.states[r.orderId], r, left, trades) && 0 <= left <= r.quantity
  {
    WithdrawnTakes(x, r);
    MatchSpares(Withdrawn(x, r), r.orderId, r.quantity, r.timestamp);
    MatchKeeps(Withdrawn(x, r), r.orderId, r.quantity, r.timestamp);
  }

  lemma RematchGets(x: Exchange, r: ReplaceRequest)
    requires Ok(x) && InBook(x, r.orderId) && r.price > 0 && r.quantity > 0
    ensures Taking(Withdrawn(x, r), r.orderId, r.quantity)
    ensures r.quantity - Match(Withdrawn(x, r), r.orderId, r.quantity, r.timestamp).1 == Min(r.quantity, ReplaceWithin(x, r))
  {
    WithdrawnTakes(x, r);
    WithdrawnFaces(x, r);
    MatchTakes(Withdrawn(x, r), r.orderId, r.quantity, r.timestamp);
  }

  /** What all the resting orders the replaced order would meet have left. */
  ghost function ReplaceWithin(x: Exchange, r: ReplaceRequest): int
    requires r.orderId in x.states
  {
    var st := x.states[r.orderId];
    Left(x.states, FacingIds(x, st.side, st.orderType, r.price))
  }

  lemma RematchSpares(x: Exchange, r: ReplaceRequest)
    requires Ok(x) && InBook(x, r.orderId) && r.price > 0 && r.quantity > 0
    ensures Taking(Withdrawn(x, r), r.orderId, r.quantity)
    ensures var st := x.states[r.orderId]; var x2 := Match(Withdrawn(x, r), r.orderId, r.quantity, r.timestamp).0;
      && Placed(Withdrawn(x, r), x2, r.orderId, st.side, r.price, false)
      && OthersKept(x, x2, r.orderId, st.side, st.orderType, r.price)
  {
    WithdrawnTakes(x, r);
    WithdrawnFaces(x, r);
    MatchSpares(Withdrawn(x, r), r.orderId, r.quantity, r.timestamp);
    SparedAround(x, r, Match(Withdrawn(x, r), r.orderId, r.quantity, r.timestamp).0);
  }

  lemma SparedAround(x: Exchange, r: ReplaceRequest, x2: Exchange)
    requires r.orderId in x.states
    requires var st, x1 := x.states[r.orderId], Withdrawn(x, r);
      && (forall k :: Facing(x1, st.side, st.orderType, r.price, k) == Facing(x, st.side, st.orderType, r.price, k))
      && Spares(x1, x2, r.orderId, st.side, st.orderType, r.price)
    ensures OthersKept(x, x2, r.orderId, x.states[r.orderId].side, x.states[r.orderId].orderType, r.price)
  {
    var st := x.states[r.orderId];
    forall k | k in x.states && k != r.orderId ensures KeptOrTraded(x, x2, st.side, st.orderType, r.price, k) {
      KeptBefore(x, Withdrawn(x, r), x2, st.side, st.orderType, r.price, k);
    }
  }

  lemma FinishAmendPlaces(w: Exchange, x2: Exchange, st: OrderState, r: ReplaceRequest, left: int, canRest: bool)
    requires Placed(w, x2, r.orderId, st.side, r.price, false) && ValidSide(st.side)
    requires r.orderId in x2.states && HasNewTerms(x2.states[r.orderId], st, r)
    ensures Placed(w, FinishAmend(x2, r.orderId, left, r, canRest).0, r.orderId, st.side, r.price, left > 0 && canRest)
  {
    var id := r.orderId;
    var x3 := if x2.states[id].filled > 0 && x2.states[id].status != Replaced then SetStatus(x2, id, PartiallyFilled) else x2;
    SamePlaces(w, x2, x3, id, st.side, r.price, false);
    RestPlaces(w, x3, id, st.side, r.price);
    SamePlaces(w, x2, SetStatus(x3, id, Rejected), id, st.side, r.price, false);
  }

  lemma FinishAmendEnds(x: Exchange, x2: Exchange, r: ReplaceRequest, left: int, trades: seq<Report>, canRest: bool)
    requires r.orderId in x.states && ValidSide(x.states[r.orderId].side) && x.states[r.orderId].filled >= 0
    requires var st := x.states[r.orderId];
      Placed(Withdrawn(x, r), x2, r.orderId, st.side, r.price, false) && OthersKept(x, x2, r.orderId, st.side, st.orderType, r.price)
    requires Rematched(x2, x.states[r.orderId], r, left, trades) && 0 <= left <= r.quantity && r.quantity > 0
    ensures Requoted(x, FinishAmend(x2, r.orderId, left, r, canRest).0, r, canRest, r.quantity - left)
  {
    var st, x3 := x.states[r.orderId], FinishAmend(x2, r.orderId, left, r, canRest).0;
    FinishAmendPlaces(Withdrawn(x, r), x2, st, r, left, canRest);
    assert x3.states.Keys == x2.states.Keys;
    OthersStay(x, x2, x3, r.orderId, st.side, st.orderType, r.price);
  }

  /** Withdrawing an order, matching it again, and closing it. */
  ghost function Rematch(x: Exchange, r: ReplaceRequest, canRest: bool): (Exchange, seq<Report>)
    requires Ok(x) && InBook(x, r.orderId) && r.price > 0 && r.quantity > 0
  {
    WithdrawnTakes(x, r);
    var x1 := Withdrawn(x, r);
    var (x2, left, trades) := Match(x1, r.orderId, r.quantity, r.timestamp);
    MatchKeeps(x1, r.orderId, r.quantity, r.timestamp);
    var (x3, closing) := FinishAmend(x2, r.orderId, left, r, canRest);
    (x3, [MakeReport(x1.states[r.orderId], ExecReplaced, 0, 0, r.timestamp, NoReason)] + trades + closing)
  }

  lemma AmendIs(x: Exchange, r: ReplaceRequest, canRest: bool)
    requires Ok(x) && InBook(x, r.orderId) && r.price > 0 && r.quantity > 0
    ensures Amend(x, r, canRest) == Rematch(x, r, canRest)
  {
  }

  lemma RematchEffect(x: Exchange, r: ReplaceRequest, canRest: bool)
    requires Ok(x) && InBook(x, r.orderId) && r.price > 0 && r.quantity > 0
    ensures Requoted(x, Rematch(x, r, canRest).0, r, canRest, Min(r.quantity, ReplaceWithin(x, r)))
  {
    RematchOwn(x, r);
    RematchGets(x, r);
    RematchSpares(x, r);
    RestsIn(x, r.orderId);
    var (x2, left, trades) := Match(Withdrawn(x, r), r.orderId, r.quantity, r.timestamp);
    FinishAmendEnds(x, x2, r, left, trades, canRest);
    assert Rematch(x, r, canRest).0 == FinishAmend(x2, r.orderId, left, r, canRest).0;
  }

  /** A replacement that is not refused takes the order out of its place, keeps what it traded before, and
      trades all it can at the new price; what is left of it stands last at that price. */
  lemma ReplaceEffect(x: Exchange, r: ReplaceRequest, canRest: bool)
    requires Ok(x) && Refusal(ReplaceOrder(x, r, canRest).1) == NoReason
    ensures InBook(x, r.orderId)
    ensures var st := x.states[r.orderId];
      && LostFrom(On(x, st.side), On(Withdrawn(x, r), st.side), st.limit, r.orderId)
      && On(Withdrawn(x, r), Opposite(st.side)) == On(x, Opposite(st.side))
    ensures Requoted(x, ReplaceOrder(x, r, canRest).0, r, canRest, Min(r.quantity, ReplaceWithin(x, r)))
  {
    var x1 := Reserved(x, r.clientOrderId);
    ReplaceRefusal(x, r, canRest);
    ReplaceAccepts(x, r, canRest);
    UnrestLoses(x, r.orderId);
    AmendIs(x1, r, canRest);
    RematchEffect(x1, r, canRest);
    RequotedBefore(x, Amend(x1, r, canRest).0, r, canRest);
  }

  lemma ReplaceAccepts(x: Exchange, r: ReplaceRequest, canRest: bool)
    requires Ok(x) && Refusal(ReplaceOrder(x, r, canRest).1) == NoReason
    ensures var x1 := Reserved(x, r.clientOrderId);
      Ok(x1) && InBook(x1, r.orderId) && r.price > 0 && r.quantity > 0 && ReplaceOrder(x, r, canRest) == Amend(x1, r, canRest)
  {
    ReservedOk(x, r.clientOrderId);
  }

  lemma RequotedBefore(x: Exchange, x': Exchange, r: ReplaceRequest, canRest: bool)
    requires r.orderId in x.states
    requires var x1 := Reserved(x, r.clientOrderId); Requoted(x1, x', r, canRest, Min(r.quantity, ReplaceWithin(x1, r)))
    ensures Requoted(x, x', r, canRest, Min(r.quantity, ReplaceWithin(x, r)))
  {
    var st, x1 := x.states[r.orderId], Reserved(x, r.clientOrderId);
    assert FacingIds(x1, st.side, st.orderType, r.price) == FacingIds(x, st.side, st.orderType, r.price);
    forall k | k in x.states && k != r.orderId ensures KeptOrTraded(x, x', st.side, st.orderType, r.price, k) {
      KeptBefore(x, x1, x', st.side, st.orderType, r.price, k);
    }
  }

  // ----- what a refusal says

  /** The only report of a refused request: rejected, nothing filled, nothing left, under the request's own id. */
  predicate Refuses(reports: seq<Report>, clientOrderId: nat, symbolId: nat, ts: int) {
    && |reports| == 1 && reports[0].execType == ExecRejected && reports[0].status == Rejected
    && reports[0].clientOrderId == clientOrderId && reports[0].symbolId == symbolId && reports[0].timestamp == ts
    && reports[0].filled == 0 && reports[0].remaining == 0
  }

  lemma SubmitRefuses(x: Exchange, r: NewRequest, canRest: bool)
    requires Ok(x) && Refusal(SubmitOrder(x, r, canRest).1) != NoReason
    ensures Refuses(SubmitOrder(x, r, canRest).1, r.clientOrderId, r.symbolId, r.timestamp)
  {
    var x1 := Reserved(x, r.clientOrderId);
    ReservedOk(x, r.clientOrderId);
    if Malformed(x, r) == NoReason && CanReserve(x, r.clientOrderId) && Refused(x1, r) == NoReason {
      AcceptOpens(x1, r, canRest);
    }
  }

  lemma ReplaceRefuses(x: Exchange, r: ReplaceRequest, canRest: bool)
    requires Ok(x) && Refusal(ReplaceOrder(x, r, canRest).1) != NoReason
    ensures Refuses(ReplaceOrder(x, r, canRest).1, r.clientOrderId, x.symbol, r.timestamp)
  {
    var x1 := Reserved(x, r.clientOrderId);
    ReservedOk(x, r.clientOrderId);
    if r.price > 0 && r.quantity > 0 && InBook(x1, r.orderId) {
      AmendOpens(x1, r, canRest);
    }
  }

  lemma CancelRefuses(x: Exchange, r: CancelRequest)
    requires Ok(x) && Refusal(CancelOrder(x, r).1) != NoReason
    ensures Refuses(CancelOrder(x, r).1, r.clientOrderId, x.symbol, r.timestamp)
  {
  }
}
